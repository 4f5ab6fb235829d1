/** The sorts the library calls stand for: a stable sort by a total order, removal of
    adjacent duplicates, and lexicographic order. */
module Sorting {
  import opened Wrappers

  ghost predicate Total<T(!new)>(le: (T, T) -> bool) {
    forall x, y :: le(x, y) || le(y, x)
  }

  ghost predicate Transitive<T(!new)>(le: (T, T) -> bool) {
    forall x, y, z :: le(x, y) && le(y, z) ==> le(x, z)
  }

  ghost predicate Antisymmetric<T(!new)>(le: (T, T) -> bool) {
    forall x, y :: le(x, y) && le(y, x) ==> x == y
  }

  ghost predicate Sorted<T>(le: (T, T) -> bool, s: seq<T>) {
    forall i, j :: 0 <= i < j < |s| ==> le(s[i], s[j])
  }

  function Insert<T>(le: (T, T) -> bool, x: T, s: seq<T>): seq<T> {
    if s == [] || le(x, s[0]) then [x] + s else [s[0]] + Insert(le, x, s[1..])
  }

  // A stable sort: equal elements keep their order.
  function Sort<T>(le: (T, T) -> bool, s: seq<T>): seq<T> {
    if s == [] then [] else Insert(le, s[0], Sort(le, s[1..]))
  }

  lemma {:induction false} InsertSorted<T(!new)>(le: (T, T) -> bool, x: T, s: seq<T>)
    requires Total(le) && Transitive(le) && Sorted(le, s)
    ensures Sorted(le, Insert(le, x, s)) && multiset(Insert(le, x, s)) == multiset{x} + multiset(s)
  {
    if s != [] {
      assert s == [s[0]] + s[1..];
      if !le(x, s[0]) {
        InsertSorted(le, x, s[1..]);
        var r := Insert(le, x, s[1..]);
        forall j | 0 <= j < |r|
          ensures le(s[0], r[j])
        {
          assert r[j] in multiset(r);
          assert r[j] in multiset{x} + multiset(s[1..]);
        }
      }
    }
  }

  lemma {:induction false} SortSorted<T(!new)>(le: (T, T) -> bool, s: seq<T>)
    requires Total(le) && Transitive(le)
    ensures Sorted(le, Sort(le, s)) && multiset(Sort(le, s)) == multiset(s)
  {
    if s != [] {
      SortSorted(le, s[1..]);
      InsertSorted(le, s[0], Sort(le, s[1..]));
      assert s == [s[0]] + s[1..];
    }
  }

  function Tie<T>(le: (T, T) -> bool, x: T, y: T): seq<T> {
    if le(x, y) && le(y, x) then [y] else []
  }

  // The elements that tie with x, in the order they come in.
  function Ties<T>(le: (T, T) -> bool, x: T, s: seq<T>): seq<T> {
    if s == [] then [] else Tie(le, x, s[0]) + Ties(le, x, s[1..])
  }

  lemma TiesCons<T>(le: (T, T) -> bool, x: T, y: T, s: seq<T>)
    ensures Ties(le, x, [y] + s) == Tie(le, x, y) + Ties(le, x, s)
  {
    assert ([y] + s)[1..] == s;
  }

  // Of an element and a smaller one at most one ties with x.
  lemma TieOne<T(!new)>(le: (T, T) -> bool, x: T, y: T, z: T)
    requires Transitive(le) && !le(y, z)
    ensures Tie(le, x, y) == [] || Tie(le, x, z) == []
  {
  }

  lemma {:induction false} InsertStable<T(!new)>(le: (T, T) -> bool, x: T, y: T, s: seq<T>)
    requires Transitive(le)
    ensures Ties(le, x, Insert(le, y, s)) == Tie(le, x, y) + Ties(le, x, s)
  {
    if s == [] || le(y, s[0]) {
      TiesCons(le, x, y, s);
    } else {
      InsertStable(le, x, y, s[1..]);
      TieOne(le, x, y, s[0]);
      var tail := Insert(le, y, s[1..]);
      TiesCons(le, x, s[0], tail);
      assert Insert(le, y, s) == [s[0]] + tail;
      assert Ties(le, x, s) == Tie(le, x, s[0]) + Ties(le, x, s[1..]);
      hide Transitive, Ties, Tie, Insert;
      var a, b, c := Tie(le, x, y), Tie(le, x, s[0]), Ties(le, x, s[1..]);
      assert b + (a + c) == a + (b + c);
    }
  }

  // Elements that tie keep their order.
  lemma {:induction false} SortStable<T(!new)>(le: (T, T) -> bool, x: T, s: seq<T>)
    requires Transitive(le)
    ensures Ties(le, x, Sort(le, s)) == Ties(le, x, s)
  {
    if s != [] {
      SortStable(le, x, s[1..]);
      InsertStable(le, x, s[0], Sort(le, s[1..]));
    }
  }

  lemma LeastFirst<T(!new)>(le: (T, T) -> bool, a: seq<T>, x: T)
    requires Sorted(le, a) && x in a
    ensures a[0] == x || le(a[0], x)
  {
    var i :| 0 <= i < |a| && a[i] == x;
  }

  lemma MultisetTail<T>(a: seq<T>)
    requires a != []
    ensures multiset(a[1..]) == multiset(a) - multiset{a[0]}
  {
    assert a == [a[0]] + a[1..];
  }

  lemma SameMembers<T>(a: seq<T>, b: seq<T>)
    requires multiset(a) == multiset(b)
    ensures |a| == |b| && (a != [] ==> a[0] in b && b[0] in a)
  {
    assert |multiset(a)| == |multiset(b)|;
    if a != [] {
      assert a[0] in multiset(a) && b[0] in multiset(b);
    }
  }

  // Two sorted lists of the same elements are equal, when no two different elements tie.
  lemma {:induction false} SortedUnique<T(!new)>(le: (T, T) -> bool, a: seq<T>, b: seq<T>)
    requires Sorted(le, a) && Sorted(le, b) && multiset(a) == multiset(b)
    requires forall x, y :: x in a && y in a && le(x, y) && le(y, x) ==> x == y
    ensures a == b
  {
    SameMembers(a, b);
    if a != [] {
      LeastFirst(le, a, b[0]);
      LeastFirst(le, b, a[0]);
      assert a[0] == b[0];
      MultisetTail(a);
      MultisetTail(b);
      SortedUnique(le, a[1..], b[1..]);
      assert a == [a[0]] + a[1..] && b == [b[0]] + b[1..];
    }
  }

  function Dedup<T(==)>(s: seq<T>): seq<T> {
    if |s| < 2 then s else
      (if s[0] == s[1] then [] else [s[0]]) + Dedup(s[1..])
  }

  // On a sorted list, removing adjacent duplicates keeps each element once, in order.
  lemma {:induction false} DedupSorted<T(!new)>(le: (T, T) -> bool, s: seq<T>)
    requires Sorted(le, s) && Antisymmetric(le)
    ensures Sorted(le, Dedup(s)) && NoDup(Dedup(s)) && Elems(Dedup(s)) == Elems(s)
    ensures s != [] ==> Dedup(s) != [] && Dedup(s)[0] == s[0]
  {
    if |s| >= 2 {
      var r := Dedup(s[1..]);
      DedupSorted(le, s[1..]);
      assert s == [s[0]] + s[1..];
      assert forall x :: x in r <==> x in Elems(r);
      assert forall x :: x in s[1..] <==> x in Elems(s[1..]);
      if s[0] != s[1] {
        forall j | 0 <= j < |r|
          ensures le(s[0], r[j]) && s[0] != r[j]
        {
          assert r[j] in r;
          var k :| 0 <= k < |s[1..]| && s[1..][k] == r[j];
          assert s[k + 1] == r[j] && le(s[0], s[k + 1]);
          assert le(s[0], s[1]) && (k > 0 ==> le(s[1], s[k + 1]));
        }
      }
    }
  }

  lemma NoDupMultiset<T>(a: seq<T>, b: seq<T>)
    requires NoDup(a) && NoDup(b) && forall x :: x in a <==> x in b
    ensures multiset(a) == multiset(b)
  {
    NoDupCounts(a);
    NoDupCounts(b);
  }

  lemma {:induction false} NoDupCounts<T>(a: seq<T>)
    requires NoDup(a)
    ensures forall x :: multiset(a)[x] == if x in a then 1 else 0
  {
    if a != [] {
      assert a == [a[0]] + a[1..];
      NoDupTail(a[0], a[1..]);
      NoDupCounts(a[1..]);
    }
  }

  lemma TwiceCounts<T>(b: seq<T>, i: nat, j: nat)
    requires i < j < |b| && b[i] == b[j]
    ensures multiset(b)[b[i]] >= 2
  {
    assert b == b[..i] + [b[i]] + b[i + 1..j] + [b[j]] + b[j + 1..];
  }

  // Rearranging a duplicate-free list leaves it duplicate-free.
  lemma NoDupPermuted<T>(a: seq<T>, b: seq<T>)
    requires NoDup(a) && multiset(a) == multiset(b)
    ensures NoDup(b) && forall x :: x in b <==> x in a
  {
    NoDupCounts(a);
    forall i, j | 0 <= i < j < |b|
      ensures b[i] != b[j]
    {
      if b[i] == b[j] {
        TwiceCounts(b, i, j);
      }
    }
    forall x
      ensures x in b <==> x in a
    {
      assert x in b <==> x in multiset(b);
    }
  }

  // ---- Lexicographic order ---------------------------------------------------------

  ghost predicate StrictTotal<T(!new)>(lt: (T, T) -> bool) {
    && (forall x :: !lt(x, x))
    && (forall x, y, z :: lt(x, y) && lt(y, z) ==> lt(x, z))
    && (forall x, y :: lt(x, y) || lt(y, x) || x == y)
  }

  predicate LexLe<T(==)>(lt: (T, T) -> bool, a: seq<T>, b: seq<T>) {
    a == [] || (b != [] && (lt(a[0], b[0]) || (a[0] == b[0] && LexLe(lt, a[1..], b[1..]))))
  }

  lemma {:induction false} LexTotal<T(!new)>(lt: (T, T) -> bool, a: seq<T>, b: seq<T>)
    requires StrictTotal(lt)
    ensures LexLe(lt, a, b) || LexLe(lt, b, a)
  {
    if a != [] && b != [] && a[0] == b[0] {
      LexTotal(lt, a[1..], b[1..]);
    }
  }

  lemma {:induction false} LexAntisym<T(!new)>(lt: (T, T) -> bool, a: seq<T>, b: seq<T>)
    requires StrictTotal(lt) && LexLe(lt, a, b) && LexLe(lt, b, a)
    ensures a == b
  {
    if a != [] && b != [] {
      assert a[0] == b[0];
      LexAntisym(lt, a[1..], b[1..]);
      assert a == [a[0]] + a[1..] && b == [b[0]] + b[1..];
    }
  }

  lemma {:induction false} LexTrans<T(!new)>(lt: (T, T) -> bool, a: seq<T>, b: seq<T>, c: seq<T>)
    requires StrictTotal(lt) && LexLe(lt, a, b) && LexLe(lt, b, c)
    ensures LexLe(lt, a, c)
  {
    if a != [] && a[0] == b[0] && b[0] == c[0] {
      LexTrans(lt, a[1..], b[1..], c[1..]);
    }
  }

  // Strings, character by character.
  predicate CharLt(a: char, b: char) { a < b }

  predicate StrLe(a: string, b: string) { LexLe(CharLt, a, b) }

  lemma StrOrder()
    ensures Total(StrLe) && Transitive(StrLe) && Antisymmetric(StrLe)
  {
    forall a, b {
      LexTotal(CharLt, a, b);
    }
    forall a, b, c | StrLe(a, b) && StrLe(b, c)
      ensures StrLe(a, c)
    {
      LexTrans(CharLt, a, b, c);
    }
    forall a, b | StrLe(a, b) && StrLe(b, a)
      ensures a == b
    {
      LexAntisym(CharLt, a, b);
    }
  }

  // a is a prefix of b, or is the smaller where they first differ.
  lemma {:induction false} StrLeExact(a: string, b: string)
    ensures StrLe(a, b) <==> exists k :: FirstLess(a, b, k)
  {
    if a == [] {
      assert FirstLess(a, b, 0);
    } else if b != [] && a[0] == b[0] {
      StrLeExact(a[1..], b[1..]);
      if k :| FirstLess(a[1..], b[1..], k) {
        assert a[..k + 1] == [a[0]] + a[1..][..k] && b[..k + 1] == [b[0]] + b[1..][..k];
        assert FirstLess(a, b, k + 1);
      }
      if k :| FirstLess(a, b, k) {
        assert k > 0 && a[1..][..k - 1] == a[..k][1..] && b[1..][..k - 1] == b[..k][1..];
        assert FirstLess(a[1..], b[1..], k - 1);
      }
    } else if b != [] && a[0] < b[0] {
      assert FirstLess(a, b, 0);
    } else {
      forall k
        ensures !FirstLess(a, b, k)
      {
        assert k > 0 && k <= |a| && k <= |b| ==> a[..k][0] == a[0] && b[..k][0] == b[0];
      }
    }
  }

  ghost predicate FirstLess(a: string, b: string, k: int) {
    0 <= k <= |a| && k <= |b| && a[..k] == b[..k] && (k == |a| || (k < |b| && a[k] < b[k]))
  }

  // Paths, component by component.
  predicate StrLt(a: string, b: string) { StrLe(a, b) && a != b }

  predicate PathLe(a: seq<string>, b: seq<string>) { LexLe(StrLt, a, b) }

  lemma StrLtStrict()
    ensures StrictTotal(StrLt)
  {
    StrOrder();
  }

  lemma PathOrder()
    ensures Total(PathLe) && Transitive(PathLe) && Antisymmetric(PathLe)
  {
    StrLtStrict();
    forall a, b {
      LexTotal(StrLt, a, b);
    }
    forall a, b, c | PathLe(a, b) && PathLe(b, c)
      ensures PathLe(a, c)
    {
      LexTrans(StrLt, a, b, c);
    }
    forall a, b | PathLe(a, b) && PathLe(b, a)
      ensures a == b
    {
      LexAntisym(StrLt, a, b);
    }
  }

  // A path is a prefix of another, or comes first by the component where they first differ.
  lemma {:induction false} PathLeExact(a: seq<string>, b: seq<string>)
    ensures PathLe(a, b) <==> exists k :: FirstBefore(a, b, k)
  {
    if a == [] {
      assert FirstBefore(a, b, 0);
    } else if b != [] && a[0] == b[0] {
      PathLeExact(a[1..], b[1..]);
      if k :| FirstBefore(a[1..], b[1..], k) {
        assert a[..k + 1] == [a[0]] + a[1..][..k] && b[..k + 1] == [b[0]] + b[1..][..k];
        assert FirstBefore(a, b, k + 1);
      }
      if k :| FirstBefore(a, b, k) {
        assert k > 0 && a[1..][..k - 1] == a[..k][1..] && b[1..][..k - 1] == b[..k][1..];
        assert FirstBefore(a[1..], b[1..], k - 1);
      }
    } else if b != [] && StrLt(a[0], b[0]) {
      assert FirstBefore(a, b, 0);
    } else {
      forall k
        ensures !FirstBefore(a, b, k)
      {
        assert k > 0 && k <= |a| && k <= |b| ==> a[..k][0] == a[0] && b[..k][0] == b[0];
      }
    }
  }

  ghost predicate FirstBefore(a: seq<string>, b: seq<string>, k: int) {
    0 <= k <= |a| && k <= |b| && a[..k] == b[..k] && (k == |a| || (k < |b| && a[k] != b[k] && StrLe(a[k], b[k])))
  }
}
