/** Facts about sequences without duplicates and about sums, shared by several modules. */
module Sequences {

  ghost predicate Distinct<T>(l: seq<T>) {
    forall i, j :: 0 <= i < j < |l| ==> l[i] != l[j]
  }

  /** `l` with every occurrence of `x` taken out, order kept. */
  function Without<T(==)>(l: seq<T>, x: T): (r: seq<T>)
    ensures forall y :: y in r ==> y in l && y != x
    ensures forall y :: y in l && y != x ==> y in r
    ensures if x in l then |r| < |l| else r == l
  {
    if l == [] then []
    else if l[0] == x then Without(l[1..], x)
    else [l[0]] + Without(l[1..], x)
  }

  lemma {:induction false} WithoutAt<T>(l: seq<T>, k: nat)
    requires Distinct(l) && k < |l|
    ensures Without(l, l[k]) == l[..k] + l[k + 1..]
  {
    if k == 0 {
      assert l[0] !in l[1..];
    } else {
      WithoutAt(l[1..], k - 1);
      assert l[..k] == [l[0]] + l[1..][..k - 1];
      assert l[1..][k - 1 + 1..] == l[k + 1..];
    }
  }

  /** Taking one element out keeps distinctness and leaves a list one shorter. */
  lemma WithoutDistinct<T>(l: seq<T>, x: T)
    requires Distinct(l)
    ensures Distinct(Without(l, x))
    ensures x in l ==> |Without(l, x)| == |l| - 1
  {
    if x in l {
      var k :| 0 <= k < |l| && l[k] == x;
      WithoutAt(l, k);
    }
  }

  /** The sum of all values of a finite map of weights. */
  ghost function Total<K>(m: map<K, nat>): nat
    decreases |m|
  {
    if m == map[] then 0
    else
      var k :| k in m;
      m[k] + Total(m - {k})
  }

  lemma {:induction false} TotalRemove<K>(m: map<K, nat>, k: K)
    requires k in m
    ensures Total(m) == m[k] + Total(m - {k})
    decreases |m|
  {
    var j :| j in m && Total(m) == m[j] + Total(m - {j});
    if j != k {
      TotalRemove(m - {j}, k);
      TotalRemove(m - {k}, j);
      assert m - {j} - {k} == m - {k} - {j};
    }
  }

  lemma TotalInsert<K>(m: map<K, nat>, k: K, v: nat)
    requires k !in m
    ensures Total(m[k := v]) == Total(m) + v
  {
    TotalRemove(m[k := v], k);
    assert m[k := v] - {k} == m;
  }

  lemma RemoveSize<K, V>(m: map<K, V>, k: K)
    requires k in m
    ensures |m - {k}| == |m| - 1
  {
    assert (m - {k}).Keys == m.Keys - {k};
  }

  lemma DistinctHead<T>(pre: seq<T>, l: seq<T>)
    requires Distinct(pre + l) && l != []
    ensures l[0] !in pre && l[0] !in l[1..]
    ensures Without(pre + l, l[0]) == pre + l[1..]
  {
    WithoutAt(pre + l, |pre|);
  }

  lemma Shift<T>(pre: seq<T>, l: seq<T>)
    requires l != []
    ensures pre + l == (pre + [l[0]]) + l[1..]
  {
  }

  lemma CancelTwo<T>(m: multiset<T>, x: T, y: T)
    ensures m + multiset{x} + multiset{y} - multiset{x} - multiset{y} == m
  {
  }

  lemma Assoc<T>(a: seq<T>, b: seq<T>, c: seq<T>)
    ensures a + b + c == a + (b + c)
  {
  }
}
