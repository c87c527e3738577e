/** The share `c / n` of a count in a total, as a real. */
module Ratio {

  lemma DivNonNegative(c: real, n: real)
    requires 0.0 <= c && 0.0 < n
    ensures 0.0 <= c / n
  {
  }

  lemma DivAtMostOne(c: real, n: real)
    requires c <= n && 0.0 < n
    ensures c / n <= 1.0
  {
  }

  lemma DivIsOne(c: real, n: real)
    requires 0.0 < n
    ensures c / n == 1.0 <==> c == n
  {
  }

  /** A part of a positive whole is a share in [0, 1], equal to 1 exactly for the whole. */
  lemma RatioBounds(c: nat, n: nat)
    requires 0 < n && c <= n
    ensures 0.0 <= c as real / n as real <= 1.0
    ensures c as real / n as real == 1.0 <==> c == n
  {
    DivNonNegative(c as real, n as real);
    DivAtMostOne(c as real, n as real);
    DivIsOne(c as real, n as real);
  }
}
