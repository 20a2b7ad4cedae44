/** The assignment list: a search box and two drop-down filters over the
    given assignments, and the assignment whose details are open. */
module AssignmentList {
  import opened Wrappers
  import opened Seqs
  import opened Text
  import opened Types
  import opened Aggregates

  /** The search term, ignoring case, occurs in the title or the description. */
  predicate MatchesSearch(a: Assignment, searchTerm: string) {
    Contains(Lower(a.title), Lower(searchTerm)) || Contains(Lower(a.description), Lower(searchTerm))
  }

  /** An empty filter keeps everything; a non-empty one keeps exact matches. */
  predicate MatchesSubject(a: Assignment, filterSubject: string) {
    filterSubject == "" || a.subject == filterSubject
  }

  predicate MatchesStatus(a: Assignment, filterStatus: string) {
    filterStatus == "" || StatusName(a.status) == filterStatus
  }

  predicate Passes(a: Assignment, searchTerm: string, filterSubject: string, filterStatus: string) {
    MatchesSearch(a, searchTerm) && MatchesSubject(a, filterSubject) && MatchesStatus(a, filterStatus)
  }

  function PassesFilters(searchTerm: string, filterSubject: string, filterStatus: string): Assignment -> bool {
    (a: Assignment) => Passes(a, searchTerm, filterSubject, filterStatus)
  }

  /** `filteredAssignments`: the assignments that pass all three tests, in order. */
  function FilteredAssignments(assignments: seq<Assignment>, searchTerm: string, filterSubject: string,
                               filterStatus: string): (r: seq<Assignment>)
    ensures forall i :: 0 <= i < |r| ==> Passes(r[i], searchTerm, filterSubject, filterStatus) && r[i] in assignments
    ensures forall i :: 0 <= i < |assignments| && Passes(assignments[i], searchTerm, filterSubject, filterStatus) ==>
              assignments[i] in r
    ensures IsSubsequence(r, assignments)
    // a passing assignment appears as often as in the list, any other not at all
    ensures forall i :: 0 <= i < |assignments| ==>
              multiset(r)[assignments[i]] ==
                if Passes(assignments[i], searchTerm, filterSubject, filterStatus) then multiset(assignments)[assignments[i]] else 0
  {
    var p := PassesFilters(searchTerm, filterSubject, filterStatus);
    var r := Filter(assignments, p);
    assert forall i :: 0 <= i < |r| ==> p(r[i]);
    forall i | 0 <= i < |assignments|
      ensures multiset(r)[assignments[i]] == if p(assignments[i]) then multiset(assignments)[assignments[i]] else 0
    {
      FilterMultiplicity(assignments, p, assignments[i]);
    }
    r
  }

  /** With an empty search box and both filters on "All", nothing is hidden. */
  lemma NoFiltersKeepAll(assignments: seq<Assignment>)
    ensures FilteredAssignments(assignments, "", "", "") == assignments
  {
    var p := PassesFilters("", "", "");
    forall i | 0 <= i < |assignments| ensures p(assignments[i]) {
      assert Lower("") == "";
      ContainsEmpty(Lower(assignments[i].title));
    }
    FilterAll(assignments, p);
  }

  /** Applying the same filters to the filtered list changes nothing. */
  lemma FilteringIdempotent(assignments: seq<Assignment>, searchTerm: string, filterSubject: string, filterStatus: string)
    ensures var once := FilteredAssignments(assignments, searchTerm, filterSubject, filterStatus);
            FilteredAssignments(once, searchTerm, filterSubject, filterStatus) == once
  {
    FilterIdempotent(assignments, PassesFilters(searchTerm, filterSubject, filterStatus));
  }

  /** The search ignores the case of the term. */
  lemma SearchIgnoresCase(a: Assignment, searchTerm: string)
    ensures MatchesSearch(a, searchTerm) <==> MatchesSearch(a, Lower(searchTerm))
  {
    LowerIdempotent(searchTerm);
  }

  /** A status value that is not one of the three names keeps nothing. */
  lemma UnknownStatusKeepsNothing(assignments: seq<Assignment>, searchTerm: string, filterSubject: string, filterStatus: string)
    requires filterStatus != "" && filterStatus != "pending" && filterStatus != "completed" && filterStatus != "late"
    ensures FilteredAssignments(assignments, searchTerm, filterSubject, filterStatus) == []
  {
    var p := PassesFilters(searchTerm, filterSubject, filterStatus);
    forall i | 0 <= i < |assignments| ensures !p(assignments[i]) {
      assert StatusName(assignments[i].status) != filterStatus;
    }
    FilterNone(assignments, p);
  }

  function IdIs(id: string): Assignment -> bool {
    (a: Assignment) => a.id == id
  }

  /** `assignments.find(a => a.id === id) || null`. */
  function FindById(assignments: seq<Assignment>, id: string): (r: Option<Assignment>)
    ensures r.None? <==> forall i :: 0 <= i < |assignments| ==> assignments[i].id != id
    ensures r.Some? ==> exists i :: 0 <= i < |assignments| && assignments[i] == r.value && r.value.id == id &&
                          forall j :: 0 <= j < i ==> assignments[j].id != id
  {
    match FindFirst(assignments, IdIs(id))
    case None =>
      assert forall i :: 0 <= i < |assignments| ==> !IdIs(id)(assignments[i]);
      None
    case Some(i) =>
      assert IdIs(id)(assignments[i]);
      assert forall j :: 0 <= j < i ==> !IdIs(id)(assignments[j]);
      Some(assignments[i])
  }

  /** The details of any card on screen can be opened. */
  lemma VisibleCardsOpen(assignments: seq<Assignment>, searchTerm: string, filterSubject: string,
                         filterStatus: string, i: nat)
    requires i < |FilteredAssignments(assignments, searchTerm, filterSubject, filterStatus)|
    ensures var card := FilteredAssignments(assignments, searchTerm, filterSubject, filterStatus)[i];
            FindById(assignments, card.id).Some? && FindById(assignments, card.id).value.id == card.id
  {
    var card := FilteredAssignments(assignments, searchTerm, filterSubject, filterStatus)[i];
    var k :| 0 <= k < |assignments| && assignments[k] == card;
    assert assignments[k].id == card.id;
  }

  class ListView {
    const assignments: seq<Assignment>
    var searchTerm: string
    var filterSubject: string
    var filterStatus: string
    var selected: Option<Assignment>

    constructor (assignments: seq<Assignment>)
      ensures this.assignments == assignments
      ensures searchTerm == "" && filterSubject == "" && filterStatus == "" && selected == None
    {
      this.assignments := assignments;
      searchTerm, filterSubject, filterStatus, selected := "", "", "", None;
    }

    /** The cards on screen. */
    function Visible(): (r: seq<Assignment>)
      reads this
      ensures forall i :: 0 <= i < |r| ==> Passes(r[i], searchTerm, filterSubject, filterStatus) && r[i] in assignments
      ensures forall i :: 0 <= i < |assignments| && Passes(assignments[i], searchTerm, filterSubject, filterStatus) ==>
                assignments[i] in r
      ensures IsSubsequence(r, assignments)
      // a passing record is shown as often as it occurs, any other not at all
      ensures forall i :: 0 <= i < |assignments| ==>
                multiset(r)[assignments[i]] ==
                  if Passes(assignments[i], searchTerm, filterSubject, filterStatus) then multiset(assignments)[assignments[i]] else 0
    {
      FilteredAssignments(assignments, searchTerm, filterSubject, filterStatus)
    }

    /** The subject drop-down's options after "All Subjects". */
    function SubjectOptions(): (r: seq<string>)
      reads this
      ensures NoDuplicates(r)
      ensures forall i :: 0 <= i < |r| ==> exists a :: a in assignments && a.subject == r[i]
      ensures forall a :: a in assignments ==> a.subject in r
      ensures forall i :: 0 <= i < |r| ==> r[i] in SubjectList(assignments)
      ensures forall i, j :: 0 <= i < j < |r| ==>
                IndexOf(SubjectList(assignments), r[i]) < IndexOf(SubjectList(assignments), r[j])
    {
      SubjectsOf(assignments)
    }

    method SetSearchTerm(value: string)
      modifies this
      ensures searchTerm == value
      ensures filterSubject == old(filterSubject) && filterStatus == old(filterStatus) && selected == old(selected)
    {
      searchTerm := value;
    }

    method SetFilterSubject(value: string)
      modifies this
      ensures filterSubject == value
      ensures searchTerm == old(searchTerm) && filterStatus == old(filterStatus) && selected == old(selected)
    {
      filterSubject := value;
    }

    method SetFilterStatus(value: string)
      modifies this
      ensures filterStatus == value
      ensures searchTerm == old(searchTerm) && filterSubject == old(filterSubject) && selected == old(selected)
    {
      filterStatus := value;
    }

    /** `handleViewDetails`: open the first assignment with that id, or close
        the modal when there is none. */
    method ViewDetails(id: string)
      modifies this
      ensures selected == FindById(assignments, id)
      ensures searchTerm == old(searchTerm) && filterSubject == old(filterSubject) && filterStatus == old(filterStatus)
    {
      selected := FindById(assignments, id);
    }

    /** The modal's `onClose`. */
    method CloseModal()
      modifies this
      ensures selected == None
      ensures searchTerm == old(searchTerm) && filterSubject == old(filterSubject) && filterStatus == old(filterStatus)
    {
      selected := None;
    }
  }
}
