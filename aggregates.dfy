/** The arithmetic and list shaping that the three dashboards share: status
    counts, rounded percentages, day differences, the "upcoming" selection
    and the distinct subjects with their per-subject counts. */
module Aggregates {
  import opened Wrappers
  import opened Seqs
  import opened Types

  /** `items.filter(a => a.status === st).length`. */
  function StatusCount(s: seq<Assignment>, st: Status): nat {
    |Filter(s, StatusIs(st))|
  }

  /** Every assignment has exactly one of the three statuses, so the three
      counts add up to the number of assignments. */
  lemma {:induction false} StatusPartition(s: seq<Assignment>)
    ensures StatusCount(s, Pending) + StatusCount(s, Completed) + StatusCount(s, Late) == |s|
    decreases |s|
  {
    if s != [] {
      StatusPartition(s[1..]);
      assert [s[0]] + s[1..] == s;
      FilterCons(s[0], s[1..], StatusIs(Pending));
      FilterCons(s[0], s[1..], StatusIs(Completed));
      FilterCons(s[0], s[1..], StatusIs(Late));
    }
  }

  /** `Math.round(k / n * 100)` over exact rationals: rounding to the nearest
      integer with halves rounded up. `None` stands for the NaN that the
      source computes when `n` is 0. */
  function Percent(k: nat, n: nat): (r: Option<nat>)
    ensures r.None? <==> n == 0
    ensures r.Some? ==> 2 * n * r.value <= 200 * k + n < 2 * n * r.value + 2 * n
    ensures r.Some? && k <= n ==> r.value <= 100
  {
    if n == 0 then None
    else
      var q := (200 * k + n) / (2 * n);
      assert 2 * n * q <= 200 * k + n < 2 * n * q + 2 * n;
      if k <= n then
        assert 2 * n * q <= 2 * n * 100 + n;
        PercentBound(n, q);
        Some(q)
      else Some(q)
  }

  lemma PercentBound(n: nat, q: nat)
    requires n > 0 && 2 * n * q <= 2 * n * 100 + n
    ensures q <= 100
  {
  }

  datatype Stats = Stats(total: nat, pending: nat, completed: nat, late: nat, completionRate: Option<nat>)

  /** The status counts and the completion rate of a list of assignments, as
      the student dashboard's stat cards and the parent dashboard's stat cards
      and child rows show them. */
  function StatsOf(sas: seq<Assignment>): (r: Stats)
    ensures r.total == |sas|
    ensures r.pending + r.completed + r.late == r.total
    ensures r.pending == StatusCount(sas, Pending) && r.completed == StatusCount(sas, Completed)
            && r.late == StatusCount(sas, Late)
    ensures r.completionRate.None? <==> sas == []
    ensures r.completionRate.Some? ==> r.completionRate.value <= 100
    ensures r.completionRate.Some? ==>
              2 * r.total * r.completionRate.value <= 200 * r.completed + r.total < 2 * r.total * r.completionRate.value + 2 * r.total
  {
    StatusPartition(sas);
    var completed := StatusCount(sas, Completed);
    Stats(|sas|, StatusCount(sas, Pending), completed, StatusCount(sas, Late), Percent(completed, |sas|))
  }

  const DayMillis: nat := 1000 * 60 * 60 * 24

  /** `Math.ceil((due - now) / (1000 * 60 * 60 * 24))`: the number of whole
      days, rounded up, from `now` to `due`. */
  function DiffDays(due: Timestamp, now: Timestamp): (r: int)
    ensures DayMillis * (r - 1) < due - now <= DayMillis * r
  {
    -((now - due) / DayMillis)
  }

  /** Anything due strictly in the future is at least one day away. */
  lemma FutureIsAtLeastOneDay(due: Timestamp, now: Timestamp)
    requires due > now
    ensures DiffDays(due, now) >= 1
  {
  }

  ghost predicate SortedByDue(s: seq<Assignment>) {
    forall i, j :: 0 <= i < j < |s| ==> s[i].dueDate <= s[j].dueDate
  }

  function InsertByDue(x: Assignment, s: seq<Assignment>): (r: seq<Assignment>)
    requires SortedByDue(s)
    ensures SortedByDue(r)
    ensures multiset(r) == multiset(s) + multiset{x}
    ensures |r| == |s| + 1
    decreases |s|
  {
    if s == [] || x.dueDate <= s[0].dueDate then
      SortedCons(x, s);
      [x] + s
    else
      var rest := InsertByDue(x, s[1..]);
      assert s == [s[0]] + s[1..];
      InsertKeepsBound(s[0].dueDate, x, s[1..], rest);
      SortedCons(s[0], rest);
      [s[0]] + rest
  }

  lemma SortedCons(y: Assignment, t: seq<Assignment>)
    requires SortedByDue(t)
    requires t != [] ==> y.dueDate <= t[0].dueDate
    ensures SortedByDue([y] + t)
  {
  }

  lemma InsertKeepsBound(d: int, x: Assignment, s: seq<Assignment>, r: seq<Assignment>)
    requires SortedByDue(s) && (s != [] ==> d <= s[0].dueDate) && d <= x.dueDate
    requires multiset(r) == multiset(s) + multiset{x}
    ensures r != [] ==> d <= r[0].dueDate
  {
    if r != [] {
      assert r[0] in multiset(r);
      if r[0] != x {
        assert r[0] in multiset(s);
        var j :| 0 <= j < |s| && s[j] == r[0];
        assert s[0].dueDate <= s[j].dueDate;
      }
    }
  }

  /** `s.sort((a, b) => a.dueDate - b.dueDate)`: ascending by due date,
      assignments with equal due dates staying in their original order. */
  function SortByDue(s: seq<Assignment>): (r: seq<Assignment>)
    ensures SortedByDue(r)
    ensures multiset(r) == multiset(s)
    ensures |r| == |s|
    decreases |s|
  {
    if s == [] then []
    else
      assert s == [s[0]] + s[1..];
      InsertByDue(s[0], SortByDue(s[1..]))
  }

  function DueAfter(now: Timestamp): Assignment -> bool {
    (a: Assignment) => a.dueDate > now
  }

  /** The assignments the dashboards list as upcoming. */
  ghost predicate IsUpcoming(a: Assignment, now: Timestamp) {
    a.status == Pending && a.dueDate > now
  }

  /** `s.filter(pending).filter(a => a.dueDate > now).sort(byDue).slice(0, k)`. */
  function Upcoming(s: seq<Assignment>, now: Timestamp, k: nat): (r: seq<Assignment>)
    ensures |r| <= k
    ensures forall i :: 0 <= i < |r| ==> IsUpcoming(r[i], now)
    ensures SortedByDue(r)
    ensures multiset(r) <= multiset(s)
    // what is left out is due no earlier than anything shown
    ensures forall x, i :: x in s && IsUpcoming(x, now) && x !in r && 0 <= i < |r| ==>
              r[i].dueDate <= x.dueDate
    // fewer than k are shown only when nothing is left out
    ensures |r| < k ==> forall x :: x in s && IsUpcoming(x, now) ==> x in r
  {
    var q := Filter(Filter(s, StatusIs(Pending)), DueAfter(now));
    var sorted := SortByDue(q);
    var r := Take(sorted, k);
    UpcomingFacts(s, now, k, q, sorted, r);
    r
  }

  lemma UpcomingFacts(s: seq<Assignment>, now: Timestamp, k: nat,
                      q: seq<Assignment>, sorted: seq<Assignment>, r: seq<Assignment>)
    requires q == Filter(Filter(s, StatusIs(Pending)), DueAfter(now))
    requires sorted == SortByDue(q)
    requires r == Take(sorted, k)
    ensures forall i :: 0 <= i < |r| ==> IsUpcoming(r[i], now)
    ensures SortedByDue(r)
    ensures multiset(r) <= multiset(s)
    ensures forall x, i :: x in s && IsUpcoming(x, now) && x !in r && 0 <= i < |r| ==>
              r[i].dueDate <= x.dueDate
    ensures |r| < k ==> forall x :: x in s && IsUpcoming(x, now) ==> x in r
  {
    QualifyingFacts(s, now, q);
    assert r == sorted[..|r|];
    PrefixSubmultiset(sorted, |r|);
    PrefixOfSorted(sorted, |r|);
    ShownAreUpcoming(now, q, sorted, r);
    QualifyingAreSorted(s, now, q, sorted);
  }

  lemma ShownAreUpcoming(now: Timestamp, q: seq<Assignment>, sorted: seq<Assignment>, r: seq<Assignment>)
    requires forall x :: x in q ==> IsUpcoming(x, now)
    requires multiset(sorted) == multiset(q)
    requires multiset(r) <= multiset(sorted)
    ensures forall i :: 0 <= i < |r| ==> IsUpcoming(r[i], now)
  {
    forall i | 0 <= i < |r| ensures IsUpcoming(r[i], now) {
      assert r[i] in multiset(r);
      assert r[i] in multiset(q);
    }
  }

  lemma QualifyingAreSorted(s: seq<Assignment>, now: Timestamp, q: seq<Assignment>, sorted: seq<Assignment>)
    requires forall x :: x in s && IsUpcoming(x, now) ==> x in q
    requires multiset(sorted) == multiset(q)
    ensures forall x :: x in s && IsUpcoming(x, now) ==> x in sorted
  {
    forall x | x in s && IsUpcoming(x, now) ensures x in sorted {
      assert x in multiset(q);
    }
  }

  /** What the two filters keep: exactly the upcoming assignments of `s`. */
  lemma QualifyingFacts(s: seq<Assignment>, now: Timestamp, q: seq<Assignment>)
    requires q == Filter(Filter(s, StatusIs(Pending)), DueAfter(now))
    ensures forall x :: x in q ==> IsUpcoming(x, now)
    ensures forall x :: x in s && IsUpcoming(x, now) ==> x in q
    ensures multiset(q) <= multiset(s)
  {
    var p := Filter(s, StatusIs(Pending));
    forall x | x in q ensures IsUpcoming(x, now) {
      assert x in p;
    }
    forall x | x in s && IsUpcoming(x, now) ensures x in q {
      assert x in p;
    }
    SubmultisetOfFilter(s, StatusIs(Pending));
    SubmultisetOfFilter(p, DueAfter(now));
  }

  /** A prefix of a sorted sequence is sorted and is due no later than the rest. */
  lemma PrefixOfSorted(sorted: seq<Assignment>, m: nat)
    requires SortedByDue(sorted) && m <= |sorted|
    ensures SortedByDue(sorted[..m])
    ensures forall x, i :: x in sorted && x !in sorted[..m] && 0 <= i < m ==>
              sorted[i].dueDate <= x.dueDate
  {
    forall x, i | x in sorted && x !in sorted[..m] && 0 <= i < m
      ensures sorted[i].dueDate <= x.dueDate
    {
      var j :| 0 <= j < |sorted| && sorted[j] == x;
      assert forall t :: 0 <= t < m ==> sorted[..m][t] == sorted[t] && sorted[t] != x;
    }
  }

  lemma {:induction false} SubmultisetOfFilter<T>(s: seq<T>, p: T -> bool)
    ensures multiset(Filter(s, p)) <= multiset(s)
    decreases |s|
  {
    if s != [] {
      SubmultisetOfFilter(s[1..], p);
      var rest := Filter(s[1..], p);
      assert s == [s[0]] + s[1..];
      assert multiset(s) == multiset([s[0]]) + multiset(s[1..]);
      if p(s[0]) {
        assert Filter(s, p) == [s[0]] + rest;
        assert multiset([s[0]] + rest) == multiset([s[0]]) + multiset(rest);
      } else {
        assert Filter(s, p) == rest;
      }
    }
  }

  lemma PrefixSubmultiset<T>(s: seq<T>, n: nat)
    requires n <= |s|
    ensures multiset(s[..n]) <= multiset(s)
  {
    assert s == s[..n] + s[n..];
  }

  function SubjectIs(subject: string): Assignment -> bool {
    (a: Assignment) => a.subject == subject
  }

  /** `s.map(a => a.subject)`. */
  function SubjectList(s: seq<Assignment>): (r: seq<string>)
    ensures |r| == |s| && forall i :: 0 <= i < |s| ==> r[i] == s[i].subject
  {
    seq(|s|, i requires 0 <= i < |s| => s[i].subject)
  }

  /** `Array.from(new Set(s.map(a => a.subject)))`: each subject once, in
      order of first use. */
  function SubjectsOf(s: seq<Assignment>): (r: seq<string>)
    ensures NoDuplicates(r)
    ensures forall i :: 0 <= i < |r| ==> exists a :: a in s && a.subject == r[i]
    ensures forall a :: a in s ==> a.subject in r
    ensures |r| <= |s|
    ensures forall i :: 0 <= i < |r| ==> r[i] in SubjectList(s)
    ensures forall i, j :: 0 <= i < j < |r| ==> IndexOf(SubjectList(s), r[i]) < IndexOf(SubjectList(s), r[j])
  {
    var subjects := SubjectList(s);
    var r := Distinct(subjects);
    assert forall i :: 0 <= i < |r| ==> exists j :: 0 <= j < |s| && subjects[j] == r[i];
    forall a | a in s ensures a.subject in r {
      var j :| 0 <= j < |s| && s[j] == a;
      assert subjects[j] in r;
    }
    r
  }

  /** `s.filter(a => a.subject === subject).length`. */
  function SubjectCount(s: seq<Assignment>, subject: string): nat {
    |Filter(s, SubjectIs(subject))|
  }

  /** A listed subject has at least one assignment, so dividing by its count is safe. */
  lemma SubjectNonEmpty(s: seq<Assignment>, subject: string)
    requires subject in SubjectsOf(s)
    ensures SubjectCount(s, subject) > 0
  {
    var a :| a in s && a.subject == subject;
    var i :| 0 <= i < |s| && s[i] == a;
    assert s[i] in Filter(s, SubjectIs(subject));
  }

  /** The sum of the per-subject counts over `subjects`. */
  function SubjectTotal(s: seq<Assignment>, subjects: seq<string>): nat
    decreases |subjects|
  {
    if subjects == [] then 0
    else SubjectCount(s, subjects[0]) + SubjectTotal(s, subjects[1..])
  }

  /** The number of entries of `subjects` equal to `x`. */
  function Occurrences(subjects: seq<string>, x: string): nat
    decreases |subjects|
  {
    if subjects == [] then 0
    else (if subjects[0] == x then 1 else 0) + Occurrences(subjects[1..], x)
  }

  lemma {:induction false} OccursOnce(subjects: seq<string>, x: string)
    requires NoDuplicates(subjects) && x in subjects
    ensures Occurrences(subjects, x) == 1
    decreases |subjects|
  {
    if subjects[0] == x {
      NotOccurring(subjects[1..], x);
    } else {
      OccursOnce(subjects[1..], x);
    }
  }

  lemma {:induction false} NotOccurring(subjects: seq<string>, x: string)
    requires x !in subjects
    ensures Occurrences(subjects, x) == 0
    decreases |subjects|
  {
    if subjects != [] {
      NotOccurring(subjects[1..], x);
    }
  }

  lemma {:induction false} SubjectTotalCons(a: Assignment, t: seq<Assignment>, subjects: seq<string>)
    ensures SubjectTotal([a] + t, subjects) == Occurrences(subjects, a.subject) + SubjectTotal(t, subjects)
    decreases |subjects|
  {
    if subjects != [] {
      FilterCons(a, t, SubjectIs(subjects[0]));
      SubjectTotalCons(a, t, subjects[1..]);
    }
  }

  /** When every assignment's subject is listed exactly once, the per-subject
      counts add up to the number of assignments. */
  lemma {:induction false} SubjectCountsCover(s: seq<Assignment>, subjects: seq<string>)
    requires NoDuplicates(subjects)
    requires forall a :: a in s ==> a.subject in subjects
    ensures SubjectTotal(s, subjects) == |s|
    decreases |s|
  {
    if s == [] {
      EmptyTotal(subjects);
    } else {
      assert s == [s[0]] + s[1..];
      SubjectCountsCover(s[1..], subjects);
      SubjectTotalCons(s[0], s[1..], subjects);
      OccursOnce(subjects, s[0].subject);
    }
  }

  lemma {:induction false} EmptyTotal(subjects: seq<string>)
    ensures SubjectTotal([], subjects) == 0
    decreases |subjects|
  {
    if subjects != [] {
      EmptyTotal(subjects[1..]);
    }
  }
}
