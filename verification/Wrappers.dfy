/** Option values and duplicate-free sequences, shared by the other modules. */
module Wrappers {
  datatype Option<+T> = None | Some(value: T)
  {
    function GetOr(default: T): T {
      if Some? then value else default
    }
  }

  predicate NoDup<T(==)>(s: seq<T>) {
    forall i, j :: 0 <= i < j < |s| ==> s[i] != s[j]
  }

  function Elems<T(==)>(s: seq<T>): set<T> {
    set x | x in s
  }

  lemma NoDupConcat<T>(a: seq<T>, b: seq<T>)
    requires NoDup(a) && NoDup(b) && forall i :: 0 <= i < |b| ==> b[i] !in a
    ensures NoDup(a + b)
  {
  }

  lemma NoDupTail<T>(x: T, s: seq<T>)
    requires NoDup([x] + s)
    ensures NoDup(s) && x !in s
  {
    assert ([x] + s)[0] == x;
    assert forall i :: 0 <= i < |s| ==> ([x] + s)[i + 1] == s[i];
  }

  lemma NoDupLength<T>(s: seq<T>)
    requires NoDup(s)
    ensures |s| == |Elems(s)|
  {
    if s != [] {
      var front, last := s[..|s| - 1], s[|s| - 1];
      NoDupLength(front);
      assert s == front + [last];
      assert Elems(s) == Elems(front) + {last};
      assert last !in front;
    }
  }

  // A duplicate-free list drawn from a finite set is no longer than the set.
  lemma NoDupWithin<T>(s: seq<T>, u: set<T>)
    requires NoDup(s) && Elems(s) <= u
    ensures |s| <= |u|
  {
    NoDupLength(s);
    SubsetSize(Elems(s), u);
  }

  lemma SubsetSize<T>(a: set<T>, b: set<T>)
    requires a <= b
    ensures |a| <= |b|
    ensures a < b ==> |a| < |b|
  {
    var rest := b - a;
    assert b == a + rest;
    assert |b| == |a| + |rest|;
    if a < b {
      assert exists x :: x in rest;
    }
  }

  lemma {:induction false} Enumerate<T>(s: set<T>) returns (q: seq<T>)
    ensures NoDup(q) && Elems(q) == s
    decreases |s|
  {
    if s == {} {
      q := [];
    } else {
      var x :| x in s;
      var q' := Enumerate(s - {x});
      q := q' + [x];
      assert x !in Elems(q');
      NoDupConcat(q', [x]);
      assert Elems(q) == Elems(q') + {x};
    }
  }

  ghost function Sum<K>(m: map<K, nat>): nat
    decreases |m|
  {
    if m == map[] then 0 else
      var k :| k in m;
      m[k] + Sum(m - {k})
  }

  lemma Smaller<K, V>(m: map<K, V>, k: K)
    requires k in m
    ensures |m - {k}| == |m| - 1
  {
    assert m.Keys == (m - {k}).Keys + {k};
  }

  lemma {:induction false} SumWithout<K>(m: map<K, nat>, k: K)
    requires k in m
    ensures Sum(m) == m[k] + Sum(m - {k})
    decreases |m|
  {
    var j :| j in m && Sum(m) == m[j] + Sum(m - {j});
    if j != k {
      Smaller(m, j);
      Smaller(m, k);
      SumWithout(m - {j}, k);
      assert (m - {j}) - {k} == (m - {k}) - {j};
      SumWithout(m - {k}, j);
    }
  }

  lemma SumUpdate<K>(m: map<K, nat>, k: K, v: nat)
    requires k in m
    ensures Sum(m[k := v]) + m[k] == Sum(m) + v
  {
    SumWithout(m, k);
    SumWithout(m[k := v], k);
    assert m[k := v] - {k} == m - {k};
  }

  lemma SumWith<K>(m: map<K, nat>, k: K, v: nat)
    requires k !in m
    ensures Sum(m[k := v]) == Sum(m) + v
  {
    SumWithout(m[k := v], k);
    assert m[k := v] - {k} == m;
  }

  lemma {:induction false} SumBounded<K>(m: map<K, nat>, n: nat)
    requires forall k :: k in m ==> m[k] <= n
    ensures Sum(m) <= n * |m|
    decreases |m|
  {
    if m != map[] {
      var k :| k in m;
      SumWithout(m, k);
      Smaller(m, k);
      SumBounded(m - {k}, n);
      OneMoreTime(n, |m| - 1);
    }
  }

  lemma OneMoreTime(n: nat, k: nat)
    ensures n * k + n == n * (k + 1)
  {
  }
}
