/** Small things every component shares. */
module Common {

  datatype Option<+T> = None | Some(value: T)

  /** `toLowerCase` on the ASCII text of addresses and hashes. */
  function Lower(s: string): string {
    seq(|s|, i requires 0 <= i < |s| => LowerChar(s[i]))
  }

  function LowerChar(c: char): char {
    if 'A' <= c <= 'Z' then ((c as int) + 32) as char else c
  }

  const CAPITALS := "ABCDEFGHIJKLMNOPQRSTUVWXYZ"
  const SMALLS := "abcdefghijklmnopqrstuvwxyz"

  /** Every capital letter of the alphabet becomes its small one, and nothing else changes. */
  lemma LowerIs(s: string, i: nat)
    requires i < |s|
    ensures |Lower(s)| == |s|
    ensures forall j :: 0 <= j < 26 && s[i] == CAPITALS[j] ==> Lower(s)[i] == SMALLS[j]
    ensures s[i] !in CAPITALS ==> Lower(s)[i] == s[i]
  {
    assert forall j :: 0 <= j < 26 ==> CAPITALS[j] as int == 65 + j && SMALLS[j] as int == 97 + j;
    if 'A' <= s[i] <= 'Z' {
      assert s[i] == CAPITALS[s[i] as int - 65];
    }
  }

  function Min(a: int, b: int): int {
    if a < b then a else b
  }

  function Max(a: int, b: int): int {
    if a < b then b else a
  }

  // ---- multiplication and floor division -----------------------------------

  lemma MulMono(x: nat, y: nat, d: nat)
    ensures x <= y ==> x * d <= y * d
    ensures x < y && 0 < d ==> x * d < y * d
  {
  }

  lemma DivBounds(a: nat, d: nat)
    requires 0 < d
    ensures a / d * d <= a < a / d * d + d
  {
  }

  /** A quotient is pinned down by the product it lies under. */
  lemma DivMono(a: nat, b: nat, d: nat)
    requires 0 < d && a <= b
    ensures a / d <= b / d
  {
    DivBounds(a, d);
    DivBounds(b, d);
    MulMono(b / d + 1, a / d, d);
    assert (b / d + 1) * d == b / d * d + d;
  }

  lemma DivExact(q: nat, d: nat)
    requires 0 < d
    ensures q * d / d == q
  {
    DivBounds(q * d, d);
    MulMono(q * d / d + 1, q, d);
    MulMono(q + 1, q * d / d, d);
    assert (q + 1) * d == q * d + d;
    assert (q * d / d + 1) * d == q * d / d * d + d;
  }

  // ---- sums over a table ---------------------------------------------------

  /** The sum of a column of a finite table. */
  ghost function Sum<K(!new)>(m: map<K, int>): int
    decreases |m|
  {
    if m == map[] then 0 else
      var k :| k in m;
      m[k] + Sum(m - {k})
  }

  /** The sum does not depend on which row is taken out first. */
  lemma {:induction false} SumRemove<K(!new)>(m: map<K, int>, k: K)
    requires k in m
    ensures Sum(m) == m[k] + Sum(m - {k})
    decreases |m|
  {
    var j :| j in m && Sum(m) == m[j] + Sum(m - {j});
    if j != k {
      SumRemove(m - {j}, k);
      SumRemove(m - {k}, j);
      assert m - {j} - {k} == m - {k} - {j};
    }
  }

  /** Writing one row moves the sum by exactly the change in that row. */
  lemma SumUpdate<K(!new)>(m: map<K, int>, k: K, v: int)
    ensures Sum(m[k := v]) == Sum(m) - (if k in m then m[k] else 0) + v
  {
    SumRemove(m[k := v], k);
    assert m[k := v] - {k} == m - {k};
    if k in m {
      SumRemove(m, k);
    } else {
      assert m - {k} == m;
    }
  }

  /** Rows that are zero may be left out of a sum. */
  lemma {:induction false} SumSkipsZeros<K(!new)>(m: map<K, int>, part: map<K, int>)
    requires part.Keys <= m.Keys && forall k :: k in part ==> part[k] == m[k]
    requires forall k :: k in m && k !in part ==> m[k] == 0
    ensures Sum(m) == Sum(part)
    decreases |m|
  {
    if k :| k in m && k !in part {
      SumRemove(m, k);
      SumSkipsZeros(m - {k}, part);
    } else {
      assert m == part;
    }
  }
}
