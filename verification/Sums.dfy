/** Sums of a weight over a sequence, used both to count and to measure. */
module Sums {
  function SumBy<T>(f: T -> nat, s: seq<T>): nat {
    if s == [] then 0 else f(s[0]) + SumBy(f, s[1..])
  }

  lemma {:induction false} SumByAppend<T>(f: T -> nat, a: seq<T>, b: seq<T>)
    ensures SumBy(f, a + b) == SumBy(f, a) + SumBy(f, b)
  {
    if a == [] {
      assert a + b == b;
    } else {
      assert (a + b)[1..] == a[1..] + b;
      SumByAppend(f, a[1..], b);
    }
  }

  lemma SumByOne<T>(f: T -> nat, x: T)
    ensures SumBy(f, [x]) == f(x)
  {
    assert [x][1..] == [];
  }

  lemma SumBySplit<T>(f: T -> nat, s: seq<T>, k: nat)
    requires k < |s|
    ensures SumBy(f, s) == SumBy(f, s[..k]) + f(s[k]) + SumBy(f, s[k + 1..])
    ensures SumBy(f, s[..k] + s[k + 1..]) == SumBy(f, s[..k]) + SumBy(f, s[k + 1..])
  {
    assert s == s[..k] + ([s[k]] + s[k + 1..]);
    SumByAppend(f, s[..k], [s[k]] + s[k + 1..]);
    SumByAppend(f, [s[k]], s[k + 1..]);
    SumByOne(f, s[k]);
    SumByAppend(f, s[..k], s[k + 1..]);
  }

  lemma SumByUpdate<T>(f: T -> nat, s: seq<T>, k: nat, x: T)
    requires k < |s|
    ensures SumBy(f, s[k := x]) == SumBy(f, s) - f(s[k]) + f(x)
  {
    SumBySplit(f, s, k);
    var t := s[k := x];
    SumBySplit(f, t, k);
    assert t[..k] == s[..k] && t[k + 1..] == s[k + 1..];
  }

  lemma {:induction false} SumByMonotone<T>(f: T -> nat, a: seq<T>, b: seq<T>)
    requires |a| == |b| && forall i :: 0 <= i < |a| ==> f(a[i]) <= f(b[i])
    ensures SumBy(f, a) <= SumBy(f, b)
    ensures (exists i :: 0 <= i < |a| && f(a[i]) < f(b[i])) ==> SumBy(f, a) < SumBy(f, b)
  {
    if a != [] {
      forall i | 0 <= i < |a| - 1 ensures f(a[1..][i]) <= f(b[1..][i]) {
        assert f(a[i + 1]) <= f(b[i + 1]);
      }
      SumByMonotone(f, a[1..], b[1..]);
      if i :| 0 < i < |a| && f(a[i]) < f(b[i]) {
        assert f(a[1..][i - 1]) < f(b[1..][i - 1]);
      }
    }
  }
}
