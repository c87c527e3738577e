/** The stable sort behind Kotlin's `sortedBy`, `sortedWith(compareBy(..).thenBy(..))`
    and `sortedByDescending`: keys are compared lexicographically as (major, minor) and
    elements with equal keys keep their input order. A stable sort has exactly one
    possible result, so this insertion sort stands for the library's. */
module Sorting {
  import Seqs

  datatype Key = Key(major: int, minor: int)

  predicate KeyLt(a: Key, b: Key) {
    a.major < b.major || (a.major == b.major && a.minor < b.minor)
  }

  predicate KeyLe(a: Key, b: Key) {
    !KeyLt(b, a)
  }

  ghost predicate SortedBy<T>(s: seq<T>, key: T -> Key) {
    forall i, j :: 0 <= i < j < |s| ==> KeyLe(key(s[i]), key(s[j]))
  }

  /** The elements of s whose key is k, in order. */
  function WithKey<T>(s: seq<T>, key: T -> Key, k: Key): (r: seq<T>)
    ensures |r| <= |s|
  {
    if s == [] then []
    else if key(s[|s| - 1]) == k then WithKey(s[..|s| - 1], key, k) + [s[|s| - 1]]
    else WithKey(s[..|s| - 1], key, k)
  }

  /** Places x after every element whose key is not greater than x's. */
  function Insert<T>(x: T, s: seq<T>, key: T -> Key): (r: seq<T>)
    ensures |r| == |s| + 1
    ensures multiset(r) == multiset(s) + multiset{x}
    decreases |s|
  {
    if s == [] then [x]
    else if KeyLt(key(x), key(s[0])) then [x] + s
    else assert s == [s[0]] + s[1..]; [s[0]] + Insert(x, s[1..], key)
  }

  function SortBy<T>(s: seq<T>, key: T -> Key): (r: seq<T>)
    ensures |r| == |s|
    ensures multiset(r) == multiset(s)
    ensures SortedBy(r, key)
  {
    if s == [] then []
    else
      var r := Insert(s[|s| - 1], SortBy(s[..|s| - 1], key), key);
      InsertSorted(s[|s| - 1], SortBy(s[..|s| - 1], key), key);
      assert s == s[..|s| - 1] + [s[|s| - 1]];
      r
  }

  lemma {:induction false} InsertSorted<T>(x: T, s: seq<T>, key: T -> Key)
    requires SortedBy(s, key)
    ensures SortedBy(Insert(x, s, key), key)
    decreases |s|
  {
    if s != [] && !KeyLt(key(x), key(s[0])) {
      InsertSorted(x, s[1..], key);
      var r := Insert(x, s[1..], key);
      forall y | y in multiset(r)
        ensures KeyLe(key(s[0]), key(y))
      {
        assert y in multiset(s[1..]) + multiset{x};
        if y in multiset(s[1..]) {
          var j :| 0 <= j < |s[1..]| && s[1..][j] == y;
          assert s[j + 1] == y;
        }
      }
      forall j | 0 <= j < |r| ensures KeyLe(key(s[0]), key(r[j])) {
        assert r[j] in multiset(r);
      }
    }
  }

  /** Elements that share a key keep their relative order. */
  lemma {:induction false} SortStable<T>(s: seq<T>, key: T -> Key, k: Key)
    ensures WithKey(SortBy(s, key), key, k) == WithKey(s, key, k)
  {
    if s != [] {
      var init, x := s[..|s| - 1], s[|s| - 1];
      SortStable(init, key, k);
      InsertWithKey(x, SortBy(init, key), key, k);
    }
  }

  lemma {:induction false} InsertWithKey<T>(x: T, s: seq<T>, key: T -> Key, k: Key)
    requires SortedBy(s, key)
    ensures WithKey(Insert(x, s, key), key, k)
         == WithKey(s, key, k) + (if key(x) == k then [x] else [])
    decreases |s|
  {
    if s == [] {
    } else if KeyLt(key(x), key(s[0])) {
      if key(x) == k {
        NoneWithKey(s, key, k);
        WithKeyCons(x, s, key, k);
      } else {
        WithKeyCons(x, s, key, k);
      }
    } else {
      var rest := s[1..];
      assert SortedBy(rest, key) by {
        forall i, j | 0 <= i < j < |rest| ensures KeyLe(key(rest[i]), key(rest[j])) {
          assert rest[i] == s[i + 1] && rest[j] == s[j + 1];
        }
      }
      InsertWithKey(x, rest, key, k);
      assert s == [s[0]] + rest;
      assert Insert(x, s, key) == [s[0]] + Insert(x, rest, key);
      InsertWithKeyStep(s[0], rest, Insert(x, rest, key), key, k, if key(x) == k then [x] else []);
    }
  }

  lemma InsertWithKeyStep<T>(y: T, rest: seq<T>, inserted: seq<T>, key: T -> Key, k: Key, added: seq<T>)
    requires WithKey(inserted, key, k) == WithKey(rest, key, k) + added
    ensures WithKey([y] + inserted, key, k) == WithKey([y] + rest, key, k) + added
  {
    WithKeyCons(y, rest, key, k);
    WithKeyCons(y, inserted, key, k);
    Seqs.ConcatAssoc(if key(y) == k then [y] else [], WithKey(rest, key, k), added);
  }

  /** WithKey read from the front. */
  lemma {:induction false} WithKeyCons<T>(x: T, s: seq<T>, key: T -> Key, k: Key)
    ensures WithKey([x] + s, key, k) == (if key(x) == k then [x] else []) + WithKey(s, key, k)
    decreases |s|
  {
    if s != [] {
      var t := [x] + s;
      assert t[..|t| - 1] == [x] + s[..|s| - 1];
      WithKeyCons(x, s[..|s| - 1], key, k);
    }
  }

  lemma {:induction false} NoneWithKey<T>(s: seq<T>, key: T -> Key, k: Key)
    requires forall i :: 0 <= i < |s| ==> KeyLt(k, key(s[i]))
    ensures WithKey(s, key, k) == []
    decreases |s|
  {
    if s != [] {
      NoneWithKey(s[..|s| - 1], key, k);
    }
  }

  /** WithKey keeps exactly the elements with that key. */
  lemma {:induction false} WithKeyMembers<T>(s: seq<T>, key: T -> Key, k: Key)
    ensures forall x :: x in WithKey(s, key, k) <==> x in s && key(x) == k
  {
    if s != [] {
      var init := s[..|s| - 1];
      WithKeyMembers(init, key, k);
      assert s == init + [s[|s| - 1]];
    }
  }

  lemma {:induction false} AllWithKey<T>(s: seq<T>, key: T -> Key, k: Key)
    requires forall i :: 0 <= i < |s| ==> key(s[i]) == k
    ensures WithKey(s, key, k) == s
  {
    if s != [] {
      AllWithKey(s[..|s| - 1], key, k);
      assert s == s[..|s| - 1] + [s[|s| - 1]];
    }
  }

  /** A sorted list whose keys are only lo and hi, lo before hi, is its lo part followed by
      its hi part. */
  lemma {:induction false} TwoKeySplit<T>(s: seq<T>, key: T -> Key, lo: Key, hi: Key)
    requires KeyLt(lo, hi)
    requires forall i :: 0 <= i < |s| ==> key(s[i]) == lo || key(s[i]) == hi
    requires SortedBy(s, key)
    ensures s == WithKey(s, key, lo) + WithKey(s, key, hi)
  {
    if s != [] {
      var init, x := s[..|s| - 1], s[|s| - 1];
      assert s == init + [x];
      TwoKeySplit(init, key, lo, hi);
      if key(x) == lo {
        assert forall i :: 0 <= i < |init| ==> key(init[i]) == lo by {
          forall i | 0 <= i < |init| ensures key(init[i]) == lo {
            assert KeyLe(key(s[i]), key(s[|s| - 1]));
          }
        }
        AllWithKey(init, key, lo);
        assert |WithKey(init, key, hi)| == 0;
      }
    }
  }

  /** Cutting a list short cuts each key's elements short: those of a prefix are a prefix of
      those of the whole list. */
  lemma {:induction false} WithKeyPrefix<T>(s: seq<T>, key: T -> Key, k: Key, n: nat)
    requires n <= |s|
    ensures WithKey(s[..n], key, k) <= WithKey(s, key, k)
  {
    if n < |s| {
      var init := s[..|s| - 1];
      assert s[..n] == init[..n];
      WithKeyPrefix(init, key, k, n);
    } else {
      assert s[..n] == s;
    }
  }
}
