/** The array operations the application chains together: `filter`, `find`,
    `slice(0, k)` and `Array.from(new Set(...))`, written once over sequences. */
module Seqs {
  import opened Wrappers

  /** `xs` occurs in `ys` in the same order, possibly with gaps. */
  ghost predicate IsSubsequence<T>(xs: seq<T>, ys: seq<T>)
    decreases |ys|
  {
    if xs == [] then true
    else if ys == [] then false
    else if xs[0] == ys[0] then IsSubsequence(xs[1..], ys[1..])
    else IsSubsequence(xs, ys[1..])
  }

  lemma {:induction false} SubsequenceOfSelf<T>(s: seq<T>)
    ensures IsSubsequence(s, s)
    decreases |s|
  {
    if s != [] {
      SubsequenceOfSelf(s[1..]);
    }
  }

  lemma {:induction false} SubsequenceOfTail<T>(xs: seq<T>, y: T, ys: seq<T>)
    requires IsSubsequence(xs, ys)
    ensures IsSubsequence(xs, [y] + ys)
    decreases |xs| + |ys| + 1
  {
    if xs != [] && xs[0] == y {
      assert ([y] + ys)[1..] == ys;
      SubsequenceDropHead(xs, ys);
    } else {
      assert ([y] + ys)[1..] == ys;
    }
  }

  lemma {:induction false} SubsequenceDropHead<T>(xs: seq<T>, ys: seq<T>)
    requires xs != [] && IsSubsequence(xs, ys)
    ensures IsSubsequence(xs[1..], ys)
    decreases |xs| + |ys|
  {
    if xs[0] == ys[0] {
      if xs[1..] != [] {
        SubsequenceOfTail(xs[1..], ys[0], ys[1..]);
        assert [ys[0]] + ys[1..] == ys;
      }
    } else {
      SubsequenceDropHead(xs, ys[1..]);
      if xs[1..] != [] {
        SubsequenceOfTail(xs[1..], ys[0], ys[1..]);
        assert [ys[0]] + ys[1..] == ys;
      }
    }
  }

  /** `s.filter(p)`: the elements of `s` that satisfy `p`, in their original order. */
  function Filter<T>(s: seq<T>, p: T -> bool): (r: seq<T>)
    ensures |r| <= |s|
    ensures forall i :: 0 <= i < |r| ==> p(r[i])
    ensures forall i :: 0 <= i < |s| && p(s[i]) ==> s[i] in r
    ensures forall i :: 0 <= i < |r| ==> r[i] in s
    ensures IsSubsequence(r, s)
    decreases |s|
  {
    if s == [] then []
    else
      var rest := Filter(s[1..], p);
      SubsequenceOfTail(rest, s[0], s[1..]);
      assert [s[0]] + s[1..] == s;
      if p(s[0]) then
        assert ([s[0]] + rest)[1..] == rest;
        [s[0]] + rest
      else rest
  }

  /** Filtering with the same predicate twice keeps what filtering once kept. */
  lemma {:induction false} FilterIdempotent<T>(s: seq<T>, p: T -> bool)
    ensures Filter(Filter(s, p), p) == Filter(s, p)
    decreases |s|
  {
    if s != [] {
      FilterIdempotent(s[1..], p);
      if p(s[0]) {
        assert ([s[0]] + Filter(s[1..], p))[1..] == Filter(s[1..], p);
      }
    }
  }

  /** A predicate that holds everywhere keeps the whole sequence. */
  lemma {:induction false} FilterAll<T>(s: seq<T>, p: T -> bool)
    requires forall i :: 0 <= i < |s| ==> p(s[i])
    ensures Filter(s, p) == s
    decreases |s|
  {
    if s != [] {
      FilterAll(s[1..], p);
      assert [s[0]] + s[1..] == s;
    }
  }

  /** A predicate that holds nowhere keeps nothing. */
  lemma {:induction false} FilterNone<T>(s: seq<T>, p: T -> bool)
    requires forall i :: 0 <= i < |s| ==> !p(s[i])
    ensures Filter(s, p) == []
    decreases |s|
  {
    if s != [] {
      FilterNone(s[1..], p);
    }
  }

  /** The filter of a sequence that starts with `x`. */
  lemma FilterCons<T>(x: T, t: seq<T>, p: T -> bool)
    ensures Filter([x] + t, p) == (if p(x) then [x] + Filter(t, p) else Filter(t, p))
  {
    assert ([x] + t)[0] == x;
    assert ([x] + t)[1..] == t;
  }

  /** `s.find(p)` as the index it stops at: the first index whose element satisfies `p`. */
  function FindFirst<T>(s: seq<T>, p: T -> bool): (r: Option<nat>)
    ensures r.Some? ==> r.value < |s| && p(s[r.value])
    ensures r.Some? ==> forall j :: 0 <= j < r.value ==> !p(s[j])
    ensures r.None? <==> forall j :: 0 <= j < |s| ==> !p(s[j])
    decreases |s|
  {
    if s == [] then None
    else if p(s[0]) then Some(0)
    else match FindFirst(s[1..], p)
      case None => None
      case Some(i) =>
        assert forall j :: 1 <= j < i + 1 ==> s[j] == s[1..][j - 1];
        Some(i + 1)
  }

  /** The number of elements of `s` that satisfy `p`, counted one by one. */
  function CountIf<T>(s: seq<T>, p: T -> bool): nat
    decreases |s|
  {
    if s == [] then 0 else (if p(s[0]) then 1 else 0) + CountIf(s[1..], p)
  }

  /** `s.filter(p).length` counts the elements that satisfy `p`. */
  lemma {:induction false} FilterLength<T>(s: seq<T>, p: T -> bool)
    ensures |Filter(s, p)| == CountIf(s, p)
    decreases |s|
  {
    if s != [] {
      FilterLength(s[1..], p);
    }
  }

  /** A value that satisfies `p` is kept exactly as often as it occurs; any
      other value not at all. */
  lemma {:induction false} FilterMultiplicity<T>(s: seq<T>, p: T -> bool, x: T)
    ensures multiset(Filter(s, p))[x] == if p(x) then multiset(s)[x] else 0
    decreases |s|
  {
    if s != [] {
      FilterMultiplicity(s[1..], p, x);
      assert s == [s[0]] + s[1..];
      assert multiset(s) == multiset([s[0]]) + multiset(s[1..]);
      FilterCons(s[0], s[1..], p);
    }
  }

  /** `s.slice(0, k)`. */
  function Take<T>(s: seq<T>, k: nat): (r: seq<T>)
    ensures |r| == if k < |s| then k else |s|
    ensures forall i :: 0 <= i < |r| ==> r[i] == s[i]
  {
    if k < |s| then s[..k] else s
  }

  ghost predicate NoDuplicates<T>(s: seq<T>) {
    forall i, j :: 0 <= i < j < |s| ==> s[i] != s[j]
  }

  /** `s.indexOf(x)`: the first index at which `x` occurs. */
  function IndexOf<T(==)>(s: seq<T>, x: T): (i: nat)
    requires x in s
    ensures i < |s| && s[i] == x
    ensures forall j :: 0 <= j < i ==> s[j] != x
    decreases |s|
  {
    if s[0] == x then 0 else IndexOf(s[1..], x) + 1
  }

  /** Appending an element does not move the first occurrence of a value already present. */
  lemma IndexOfAppend<T>(s: seq<T>, z: T, x: T)
    requires x in s
    ensures IndexOf(s + [z], x) == IndexOf(s, x)
  {
    var k, k' := IndexOf(s, x), IndexOf(s + [z], x);
    assert (s + [z])[k] == x;
    assert k' < |s| ==> s[k'] == x;
  }

  /** `Array.from(new Set(s))`: each distinct element once, in order of first occurrence. */
  function Distinct<T(==)>(s: seq<T>): (r: seq<T>)
    ensures NoDuplicates(r)
    ensures forall i :: 0 <= i < |r| ==> r[i] in s
    ensures forall i :: 0 <= i < |s| ==> s[i] in r
    ensures |r| <= |s|
    ensures IsSubsequence(r, s)
    ensures forall i, j :: 0 <= i < j < |r| ==> IndexOf(s, r[i]) < IndexOf(s, r[j])
    decreases |s|
  {
    if s == [] then []
    else
      var init := s[..|s| - 1];
      var r := Distinct(init);
      var last := s[|s| - 1];
      assert s == init + [last];
      OrderAfterAppend(init, last, r);
      if last in r then
        SubsequenceOfPrefix(r, init, [last]);
        r
      else
        SubsequenceAppend(r, init, last);
        OrderWithNewLast(init, last, r);
        r + [last]
  }

  /** Values ordered by first occurrence in `s` stay so ordered in `s + [z]`. */
  lemma OrderAfterAppend<T>(s: seq<T>, z: T, r: seq<T>)
    requires forall i :: 0 <= i < |r| ==> r[i] in s
    requires forall i, j :: 0 <= i < j < |r| ==> IndexOf(s, r[i]) < IndexOf(s, r[j])
    ensures forall i :: 0 <= i < |r| ==> r[i] in s + [z]
    ensures forall i, j :: 0 <= i < j < |r| ==> IndexOf(s + [z], r[i]) < IndexOf(s + [z], r[j])
  {
    forall i | 0 <= i < |r| ensures IndexOf(s + [z], r[i]) == IndexOf(s, r[i]) {
      IndexOfAppend(s, z, r[i]);
    }
  }

  /** A value new to `s` occurs first after every value of `s`. */
  lemma OrderWithNewLast<T>(s: seq<T>, z: T, r: seq<T>)
    requires forall i :: 0 <= i < |r| ==> r[i] in s
    requires forall i :: 0 <= i < |s| ==> s[i] in r
    requires z !in r
    requires forall i, j :: 0 <= i < j < |r| ==> IndexOf(s + [z], r[i]) < IndexOf(s + [z], r[j])
    ensures forall i, j :: 0 <= i < j < |r + [z]| ==> IndexOf(s + [z], (r + [z])[i]) < IndexOf(s + [z], (r + [z])[j])
  {
    assert z !in s;
    assert IndexOf(s + [z], z) == |s|;
    forall i | 0 <= i < |r| ensures IndexOf(s + [z], r[i]) < |s| {
      IndexOfAppend(s, z, r[i]);
    }
  }

  lemma {:induction false} SubsequenceOfPrefix<T>(xs: seq<T>, ys: seq<T>, zs: seq<T>)
    requires IsSubsequence(xs, ys)
    ensures IsSubsequence(xs, ys + zs)
    decreases |ys|
  {
    if xs != [] {
      assert (ys + zs)[1..] == ys[1..] + zs;
      if xs[0] == ys[0] {
        SubsequenceOfPrefix(xs[1..], ys[1..], zs);
      } else {
        SubsequenceOfPrefix(xs, ys[1..], zs);
      }
    }
  }

  lemma {:induction false} SubsequenceAppend<T>(xs: seq<T>, ys: seq<T>, z: T)
    requires IsSubsequence(xs, ys)
    ensures IsSubsequence(xs + [z], ys + [z])
    decreases |ys|
  {
    if xs == [] {
      assert xs + [z] == [z];
      SubsequenceEnd(ys, z);
    } else {
      assert (xs + [z])[0] == xs[0];
      assert (xs + [z])[1..] == xs[1..] + [z];
      assert (ys + [z])[1..] == ys[1..] + [z];
      if xs[0] == ys[0] {
        SubsequenceAppend(xs[1..], ys[1..], z);
      } else {
        SubsequenceAppend(xs, ys[1..], z);
      }
    }
  }

  lemma {:induction false} SubsequenceEnd<T>(ys: seq<T>, z: T)
    ensures IsSubsequence([z], ys + [z])
    decreases |ys|
  {
    if ys != [] {
      assert (ys + [z])[1..] == ys[1..] + [z];
      SubsequenceEnd(ys[1..], z);
    } else {
      assert [z][1..] == [];
    }
  }
}
