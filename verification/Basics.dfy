/** Sizes and sums that several parts count with. */
module Basics {
  function Min(a: nat, b: nat): nat { if a <= b then a else b }

  /** The largest 64-bit word; addition wraps past it, or saturates at it. */
  const MAX := 0xFFFF_FFFF_FFFF_FFFF

  function Wrap(n: int): nat { n % (MAX + 1) }

  function SaturatingAdd(a: nat, b: nat): nat { if a + b > MAX then MAX else a + b }

  lemma ShortOf64(a: nat, b: nat)
    requires a + b <= MAX
    ensures Wrap(a + b) == SaturatingAdd(a, b) == a + b
  {
  }

  lemma SubsetSize<T>(a: set<T>, b: set<T>)
    requires a <= b
    ensures |a| <= |b|
  {
    assert b == a + (b - a);
  }

  lemma SubsetOfSize<T>(a: set<T>, b: set<T>)
    requires a <= b && |a| == |b|
    ensures a == b
  {
    assert b == a + (b - a);
  }

  function NatRange(from: nat, k: nat): (s: set<nat>)
    ensures |s| == k && forall i: nat :: i in s <==> from <= i < from + k
  {
    if k == 0 then {} else NatRange(from, k - 1) + {from + k - 1}
  }

  function FirstNats(k: nat): (s: set<nat>)
    ensures |s| == k && forall i: nat :: i in s <==> i < k
  {
    NatRange(0, k)
  }

  function ValueAt(m: map<string, nat>, k: string): nat { if k in m then m[k] else 0 }

  /** The sum of all values. */
  ghost function Total(m: map<string, nat>): nat
    decreases |m|
  {
    if m == map[] then 0 else
      var k :| k in m;
      m[k] + Total(m - {k})
  }

  lemma {:induction false} TotalWithout(m: map<string, nat>, k: string)
    requires k in m
    ensures Total(m) == m[k] + Total(m - {k})
    decreases |m|
  {
    var x :| x in m && Total(m) == m[x] + Total(m - {x});
    if x != k {
      TotalWithout(m - {x}, k);
      TotalWithout(m - {k}, x);
      assert m - {x} - {k} == m - {k} - {x};
    }
  }

  lemma TotalUpdated(m: map<string, nat>, k: string, n: nat)
    ensures Total(m[k := n]) == Total(m) - ValueAt(m, k) + n
  {
    hide Total;
    TotalWithout(m[k := n], k);
    assert m[k := n] - {k} == m - {k};
    if k in m { TotalWithout(m, k); } else { assert m - {k} == m; }
  }
}
