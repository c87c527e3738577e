/** Kotlin's list operations shared by the stores and the view models: `filter` and
    `indexOfFirst`. */
module Seqs {
  import opened Wrappers

  /** Kotlin's `filter`: the elements satisfying p, in order. */
  function Filter<T(!new)>(s: seq<T>, p: T -> bool): (r: seq<T>)
    ensures |r| <= |s|
    ensures forall x {:trigger x in r} :: x in r <==> x in s && p(x)
  {
    if s == [] then []
    else if p(s[0]) then [s[0]] + Filter(s[1..], p)
    else Filter(s[1..], p)
  }

  /** Filtering keeps the survivors in their order: the filter of a concatenation is the
      concatenation of the filters. */
  lemma {:induction false} FilterAppend<T(!new)>(a: seq<T>, b: seq<T>, p: T -> bool)
    ensures Filter(a + b, p) == Filter(a, p) + Filter(b, p)
  {
    if a == [] {
      assert a + b == b;
    } else {
      FilterAppend(a[1..], b, p);
      assert a == [a[0]] + a[1..];
      FilterAppendStep(a[0], a[1..], b, p);
    }
  }

  lemma FilterAppendStep<T(!new)>(x: T, rest: seq<T>, b: seq<T>, p: T -> bool)
    requires Filter(rest + b, p) == Filter(rest, p) + Filter(b, p)
    ensures Filter([x] + rest + b, p) == Filter([x] + rest, p) + Filter(b, p)
  {
    ConcatAssoc([x], rest, b);
    FilterCons(x, rest + b, p);
    FilterCons(x, rest, p);
    ConcatAssoc(if p(x) then [x] else [], Filter(rest, p), Filter(b, p));
  }

  lemma ConcatAssoc<T>(x: seq<T>, y: seq<T>, z: seq<T>)
    ensures x + (y + z) == (x + y) + z
  {
  }

  /** One step of the filter: the head is kept exactly when it passes. */
  lemma FilterCons<T(!new)>(x: T, s: seq<T>, p: T -> bool)
    ensures Filter([x] + s, p) == (if p(x) then [x] else []) + Filter(s, p)
  {
    assert ([x] + s)[0] == x && ([x] + s)[1..] == s;
  }

  /** With FilterAppend this pins the filter down: a single element is kept exactly when
      it passes. */
  lemma FilterOne<T(!new)>(x: T, p: T -> bool)
    ensures Filter([x], p) == if p(x) then [x] else []
  {
    assert [x][1..] == [];
  }

  /** A list whose every element passes is kept whole; one where none passes is emptied. */
  lemma {:induction false} FilterAllOrNone<T(!new)>(s: seq<T>, p: T -> bool)
    ensures (forall i :: 0 <= i < |s| ==> p(s[i])) ==> Filter(s, p) == s
    ensures (forall i :: 0 <= i < |s| ==> !p(s[i])) ==> Filter(s, p) == []
  {
    if s != [] {
      FilterAllOrNone(s[1..], p);
      assert forall i :: 1 <= i < |s| ==> s[1..][i - 1] == s[i];
    }
  }

  /** Filters with predicates that agree on the list give the same list. */
  lemma {:induction false} FilterSame<T(!new)>(s: seq<T>, p: T -> bool, q: T -> bool)
    requires forall i :: 0 <= i < |s| ==> p(s[i]) == q(s[i])
    ensures Filter(s, p) == Filter(s, q)
  {
    if s != [] {
      assert forall i :: 0 <= i < |s[1..]| ==> s[1..][i] == s[i + 1];
      FilterSame(s[1..], p, q);
    }
  }

  /** Kotlin's `indexOfFirst`, with None for -1: the first index whose element passes. */
  function IndexOfFirst<T>(s: seq<T>, p: T -> bool): (r: Option<nat>)
    ensures r.Some? ==> r.value < |s| && p(s[r.value])
    ensures r.Some? ==> forall j :: 0 <= j < r.value ==> !p(s[j])
    ensures r.None? <==> forall j :: 0 <= j < |s| ==> !p(s[j])
  {
    if s == [] then None
    else if p(s[0]) then Some(0)
    else match IndexOfFirst(s[1..], p)
      case None => None
      case Some(i) => Some(i + 1)
  }
}
