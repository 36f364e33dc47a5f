/**
 * How SQLite compares and matches TEXT values in this store: the BINARY
 * collation (code point by code point, a proper prefix sorting first) used
 * by `BETWEEN` and `ORDER BY`, and the substring test behind `LIKE '%k%'`.
 */
module Collation {

  /** `a <= b` under the BINARY collation. */
  predicate LexLe(a: string, b: string)
    decreases |a|
  {
    |a| == 0 || (|b| > 0 && (a[0] < b[0] || (a[0] == b[0] && LexLe(a[1..], b[1..]))))
  }

  lemma {:induction false} LexLeReflexive(a: string)
    ensures LexLe(a, a)
  {
    if |a| > 0 {
      LexLeReflexive(a[1..]);
    }
  }

  lemma {:induction false} LexLeTotal(a: string, b: string)
    ensures LexLe(a, b) || LexLe(b, a)
  {
    if |a| > 0 && |b| > 0 && a[0] == b[0] {
      LexLeTotal(a[1..], b[1..]);
    }
  }

  lemma {:induction false} LexLeAntisymmetric(a: string, b: string)
    requires LexLe(a, b) && LexLe(b, a)
    ensures a == b
  {
    if |a| > 0 {
      assert |b| > 0 && a[0] == b[0];
      LexLeAntisymmetric(a[1..], b[1..]);
      assert a == [a[0]] + a[1..] && b == [b[0]] + b[1..];
    }
  }

  lemma {:induction false} LexLeTransitive(a: string, b: string, c: string)
    requires LexLe(a, b) && LexLe(b, c)
    ensures LexLe(a, c)
  {
    if |a| > 0 && a[0] == b[0] && b[0] == c[0] {
      LexLeTransitive(a[1..], b[1..], c[1..]);
    }
  }

  /** `k` occurs in `s` starting at offset `i`. */
  ghost predicate OccursAt(s: string, k: string, i: int) {
    0 <= i <= |s| - |k| && s[i..i + |k|] == k
  }

  /** Reference definition: `k` occurs in `s` at some offset. */
  ghost predicate ContainsSub(s: string, k: string) {
    exists i :: OccursAt(s, k, i)
  }

  /** The executable test: `k` is a prefix of some suffix of `s`. */
  function HasSubstring(s: string, k: string): bool
    decreases |s|
  {
    k <= s || (|s| > 0 && HasSubstring(s[1..], k))
  }

  lemma {:induction false} HasSubstringIff(s: string, k: string)
    ensures HasSubstring(s, k) <==> ContainsSub(s, k)
  {
    if k <= s {
      assert OccursAt(s, k, 0);
    } else if |s| > 0 {
      HasSubstringIff(s[1..], k);
      if ContainsSub(s, k) {
        var i :| OccursAt(s, k, i);
        assert i != 0;
        assert s[1..][i - 1..i - 1 + |k|] == k;
        assert OccursAt(s[1..], k, i - 1);
      }
      if ContainsSub(s[1..], k) {
        var i :| OccursAt(s[1..], k, i);
        assert s[i + 1..i + 1 + |k|] == k;
        assert OccursAt(s, k, i + 1);
      }
    } else {
      assert forall i :: !OccursAt(s, k, i);
    }
  }
}
