/** The few string operations the screens rely on: blank checks, case-insensitive search
    and truncation. Case folding is ASCII only. */
module Text {

  /** Kotlin's `Char.isWhitespace`: the ASCII controls tab to carriage return, the
      separators U+001C to U+001F, the space, the no-break space, and the Unicode space and
      line separators (U+1680, U+2000 to U+200A, U+2028, U+2029, U+202F, U+205F, U+3000). */
  predicate IsWhitespace(c: char) {
    ('\t' <= c <= '\r') || ('\U{001C}' <= c <= ' ') || c == '\U{00A0}'
    || c == '\U{1680}' || ('\U{2000}' <= c <= '\U{200A}') || c == '\U{2028}' || c == '\U{2029}'
    || c == '\U{202F}' || c == '\U{205F}' || c == '\U{3000}'
  }

  /** `String.isBlank()`: empty or whitespace only. */
  predicate IsBlank(s: string) {
    forall i :: 0 <= i < |s| ==> IsWhitespace(s[i])
  }

  function LowerChar(c: char): char {
    if 'A' <= c <= 'Z' then (c as int + 32) as char else c
  }

  function Lower(s: string): (r: string)
    ensures |r| == |s|
    ensures forall i :: 0 <= i < |s| ==> r[i] == LowerChar(s[i])
  {
    if s == [] then [] else [LowerChar(s[0])] + Lower(s[1..])
  }

  /** The needle occurs at position i of the haystack, ignoring case. */
  predicate MatchesAt(haystack: string, needle: string, i: int) {
    0 <= i && i + |needle| <= |haystack| && Lower(haystack[i..i + |needle|]) == Lower(needle)
  }

  /** `haystack.contains(needle, ignoreCase = true)`. */
  predicate ContainsIgnoreCase(haystack: string, needle: string) {
    exists i | 0 <= i <= |haystack| :: MatchesAt(haystack, needle, i)
  }

  /** An empty needle occurs in every string. */
  lemma EmptyNeedleMatches(haystack: string)
    ensures ContainsIgnoreCase(haystack, "")
  {
    assert MatchesAt(haystack, "", 0);
  }

  /** A needle longer than the haystack never occurs. */
  lemma LongNeedleNeverMatches(haystack: string, needle: string)
    requires |needle| > |haystack|
    ensures !ContainsIgnoreCase(haystack, needle)
  {
  }

  /** Kotlin's `take(n)`: the first n elements, or all of them. */
  function Take<T>(s: seq<T>, n: nat): (r: seq<T>)
    ensures |r| == if |s| < n then |s| else n
    ensures r <= s
  {
    if |s| <= n then s else s[..n]
  }

  predicate NoDuplicates<T(==)>(s: seq<T>) {
    forall i, j :: 0 <= i < j < |s| ==> s[i] != s[j]
  }

  /** In a list without duplicates every element occurs at most once. */
  lemma {:induction false} NoDuplicatesOnce<T>(s: seq<T>, x: T)
    requires NoDuplicates(s)
    ensures multiset(s)[x] <= 1
  {
    if s != [] {
      assert s == [s[0]] + s[1..];
      assert NoDuplicates(s[1..]) by {
        forall i, j | 0 <= i < j < |s[1..]| ensures s[1..][i] != s[1..][j] {
          assert s[1..][i] == s[i + 1] && s[1..][j] == s[j + 1];
        }
      }
      NoDuplicatesOnce(s[1..], x);
      if s[0] == x {
        assert x !in s[1..] by {
          forall i | 0 <= i < |s[1..]| ensures s[1..][i] != x {
            assert s[1..][i] == s[i + 1];
          }
        }
      }
    }
  }

  /** Taking elements from a list without duplicates, each at most as often as it occurs
      there, gives a list without duplicates. */
  lemma SubMultisetNoDuplicates<T>(r: seq<T>, s: seq<T>)
    requires NoDuplicates(s) && multiset(r) <= multiset(s)
    ensures NoDuplicates(r)
  {
    forall i, j | 0 <= i < j < |r| ensures r[i] != r[j] {
      if r[i] == r[j] {
        var x := r[i];
        assert r == r[..j] + r[j..];
        assert x in r[..j] && x in r[j..] by {
          assert r[..j][i] == x && r[j..][0] == x;
        }
        assert multiset(r)[x] == multiset(r[..j])[x] + multiset(r[j..])[x];
        NoDuplicatesOnce(s, x);
        assert false;
      }
    }
  }

  /** Kotlin's `distinct()` (and `toSet()` on a list): first occurrences, in order. */
  function Dedup<T(==,!new)>(s: seq<T>): (r: seq<T>)
    ensures NoDuplicates(r)
    ensures forall x :: x in r <==> x in s
  {
    if s == [] then []
    else
      var init := Dedup(s[..|s| - 1]);
      assert s == s[..|s| - 1] + [s[|s| - 1]];
      if s[|s| - 1] in init then init else init + [s[|s| - 1]]
  }

  /** The survivors come in order of first occurrence: every occurrence of a later survivor
      comes after an occurrence of each earlier one. */
  lemma {:induction false} DedupFirstUseOrder<T(!new)>(s: seq<T>)
    ensures forall i, j, k ::
      (0 <= i < j < |Dedup(s)| && 0 <= k < |s| && s[k] == Dedup(s)[j] ==> Dedup(s)[i] in s[..k])
  {
    if s != [] {
      var init, x := s[..|s| - 1], s[|s| - 1];
      assert s == init + [x];
      DedupFirstUseOrder(init);
      var d := Dedup(init);
      var r := Dedup(s);
      forall i, j, k | 0 <= i < j < |r| && 0 <= k < |s| && s[k] == r[j] ensures r[i] in s[..k] {
        assert r[i] in d;
        if k < |init| {
          assert s[k] == init[k];
          assert s[..k] == init[..k];
          assert j < |d|;
        } else {
          assert s[..k] == init;
        }
      }
    }
  }

  predicate IsDigit(c: char) {
    '0' <= c <= '9'
  }

  /** Decimal rendering of a count, as string templates print an Int. */
  function NatToString(n: nat): (s: string)
    ensures |s| >= 1
    ensures forall i :: 0 <= i < |s| ==> IsDigit(s[i])
  {
    if n < 10 then [('0' as int + n) as char]
    else NatToString(n / 10) + [('0' as int + n % 10) as char]
  }

  /** Reading a string of digits back as a number. */
  function ParseDecimal(s: string): nat
    requires forall i :: 0 <= i < |s| ==> IsDigit(s[i])
  {
    if s == [] then 0
    else
      assert IsDigit(s[|s| - 1]);
      ParseDecimal(s[..|s| - 1]) * 10 + (s[|s| - 1] as int - '0' as int)
  }

  /** The rendering loses nothing: parsing it gives the number back. */
  lemma {:induction false} NatToStringRoundTrip(n: nat)
    ensures ParseDecimal(NatToString(n)) == n
  {
    if n >= 10 {
      NatToStringRoundTrip(n / 10);
      var s := NatToString(n);
      assert s[..|s| - 1] == NatToString(n / 10);
    }
  }
}
