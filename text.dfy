/**
 * The two places where the engine relies on strings: a team's record is the
 * string "<wins>-<losses>" and is compared for equality, and an unordered
 * pair of team names is keyed by `tuple(sorted([a, b]))`.
 */
module Text {

  /** The decimal digit character for `d`. */
  function Digit(d: nat): (c: char)
    requires d < 10
    ensures '0' <= c <= '9'
  {
    (48 + d) as char
  }

  /** Python `str(n)` for a non-negative integer. */
  function NatToString(n: nat): (s: string)
    ensures |s| >= 1
    ensures forall i :: 0 <= i < |s| ==> '0' <= s[i] <= '9'
    ensures n < 10 <==> |s| == 1
    decreases n
  {
    if n < 10 then [Digit(n)] else NatToString(n / 10) + [Digit(n % 10)]
  }

  /** Different numbers print differently. */
  lemma {:induction false} NatToStringInjective(a: nat, b: nat)
    requires NatToString(a) == NatToString(b)
    ensures a == b
    decreases a
  {
    if a >= 10 && b >= 10 {
      var sa, sb := NatToString(a), NatToString(b);
      assert sa[..|sa| - 1] == NatToString(a / 10);
      assert sb[..|sb| - 1] == NatToString(b / 10);
      NatToStringInjective(a / 10, b / 10);
      assert Digit(a % 10) == sa[|sa| - 1] == sb[|sb| - 1] == Digit(b % 10);
    }
  }

  /** The `record` property of a team: f"{wins}-{losses}". */
  function RecordString(wins: nat, losses: nat): string {
    NatToString(wins) + "-" + NatToString(losses)
  }

  /** Two records are equal strings exactly when wins and losses agree. */
  lemma RecordStringInjective(w1: nat, l1: nat, w2: nat, l2: nat)
    ensures RecordString(w1, l1) == RecordString(w2, l2) <==> w1 == w2 && l1 == l2
  {
    if RecordString(w1, l1) == RecordString(w2, l2) {
      var a, b, c, d := NatToString(w1), NatToString(l1), NatToString(w2), NatToString(l2);
      var r := RecordString(w1, l1);
      assert r[|a|] == '-' && r[|c|] == '-';
      assert r[..|c|] == c && r[..|a|] == a;
      assert a == r[..|a|] == c;
      assert b == r[|a| + 1..] == d;
      NatToStringInjective(w1, w2);
      NatToStringInjective(l1, l2);
    }
  }

  /** Python's `a < b` on strings: lexicographic by code point, a proper prefix first. */
  predicate StrLess(a: string, b: string)
    decreases |a|
  {
    |b| > 0 && (|a| == 0 || a[0] < b[0] || (a[0] == b[0] && StrLess(a[1..], b[1..])))
  }

  lemma {:induction false} StrLessAsymmetric(a: string, b: string)
    ensures !(StrLess(a, b) && StrLess(b, a))
    decreases |a|
  {
    if |a| > 0 && |b| > 0 && a[0] == b[0] {
      StrLessAsymmetric(a[1..], b[1..]);
    }
  }

  lemma {:induction false} StrLessTotal(a: string, b: string)
    requires a != b
    ensures StrLess(a, b) || StrLess(b, a)
    decreases |a|
  {
    if |a| > 0 && |b| > 0 && a[0] == b[0] {
      assert a == [a[0]] + a[1..] && b == [b[0]] + b[1..];
      StrLessTotal(a[1..], b[1..]);
    }
  }

  /** `tuple(sorted([a, b]))`: the canonical key of an unordered pair of names. */
  function SortedPair(a: string, b: string): (k: (string, string))
    ensures k == (a, b) || k == (b, a)
    ensures !StrLess(k.1, k.0)
  {
    StrLessAsymmetric(a, b);
    if StrLess(b, a) then (b, a) else (a, b)
  }

  /** The key does not depend on the order of the names, and identifies the unordered pair. */
  lemma SortedPairKeysUnorderedPairs(a: string, b: string, c: string, d: string)
    ensures SortedPair(a, b) == SortedPair(b, a)
    ensures SortedPair(a, b) == SortedPair(c, d) <==> (a == c && b == d) || (a == d && b == c)
  {
    StrLessAsymmetric(a, b);
    if a != b {
      StrLessTotal(a, b);
    }
    StrLessAsymmetric(c, d);
    if c != d {
      StrLessTotal(c, d);
    }
  }
}
