/** The orders and the stable sort that Python's `sort`, `heapq` and SQL's `ORDER BY` supply to the source. */
module Sorting {

  ghost predicate TotalPreorder<T(!new)>(leq: (T, T) -> bool) {
    && (forall a, b :: leq(a, b) || leq(b, a))
    && (forall a, b, c :: leq(a, b) && leq(b, c) ==> leq(a, c))
  }

  ghost predicate Antisymmetric<T(!new)>(leq: (T, T) -> bool) {
    forall a, b :: leq(a, b) && leq(b, a) ==> a == b
  }

  ghost predicate Sorted<T>(leq: (T, T) -> bool, s: seq<T>) {
    forall i, j :: 0 <= i < j < |s| ==> leq(s[i], s[j])
  }

  function Insert<T>(leq: (T, T) -> bool, x: T, s: seq<T>): (r: seq<T>)
    ensures multiset(r) == multiset(s) + multiset{x}
    ensures |r| == |s| + 1
  {
    if s == [] || leq(x, s[0]) then
      [x] + s
    else
      assert s == [s[0]] + s[1..];
      [s[0]] + Insert(leq, x, s[1..])
  }

  /** Stable: an element is placed before the equal elements that followed it. */
  function SortBy<T>(leq: (T, T) -> bool, s: seq<T>): (r: seq<T>)
    ensures multiset(r) == multiset(s)
    ensures |r| == |s|
  {
    if s == [] then
      []
    else
      assert s == [s[0]] + s[1..];
      Insert(leq, s[0], SortBy(leq, s[1..]))
  }

  lemma {:induction false} InsertKeepsSorted<T(!new)>(leq: (T, T) -> bool, x: T, s: seq<T>)
    requires TotalPreorder(leq) && Sorted(leq, s)
    ensures Sorted(leq, Insert(leq, x, s))
  {
    if s != [] && !leq(x, s[0]) {
      InsertKeepsSorted(leq, x, s[1..]);
      var r := Insert(leq, x, s[1..]);
      forall y | y in r ensures leq(s[0], y) {
        assert y in multiset(r);
        assert y == x || y in multiset(s[1..]);
      }
    }
  }

  lemma {:induction false} SortByIsSorted<T(!new)>(leq: (T, T) -> bool, s: seq<T>)
    requires TotalPreorder(leq)
    ensures Sorted(leq, SortBy(leq, s))
  {
    if s != [] {
      SortByIsSorted(leq, s[1..]);
      InsertKeepsSorted(leq, s[0], SortBy(leq, s[1..]));
    }
  }

  lemma LeastOf<T(!new)>(leq: (T, T) -> bool, s: seq<T>) returns (x: T)
    requires TotalPreorder(leq) && s != []
    ensures x in s && forall y :: y in s ==> leq(x, y)
  {
    SortByIsSorted(leq, s);
    var sorted := SortBy(leq, s);
    x := sorted[0];
    assert x in multiset(sorted);
    forall y | y in s
      ensures leq(x, y)
    {
      assert y in multiset(sorted);
    }
  }

  lemma SmallerMultiset<T>(a: multiset<T>, b: multiset<T>)
    requires a <= b
    ensures |a| <= |b|
  {
    assert b == a + (b - a);
  }

  // Lexicographic order of sequences, for strings and for tuples of strings.

  predicate LexLeq<T(==)>(leq: (T, T) -> bool, a: seq<T>, b: seq<T>) {
    if a == [] then true
    else if b == [] then false
    else if a[0] != b[0] then leq(a[0], b[0])
    else LexLeq(leq, a[1..], b[1..])
  }

  lemma {:induction false} LexTotal<T(!new)>(leq: (T, T) -> bool, a: seq<T>, b: seq<T>)
    requires TotalPreorder(leq)
    ensures LexLeq(leq, a, b) || LexLeq(leq, b, a)
  {
    if a != [] && b != [] && a[0] == b[0] {
      LexTotal(leq, a[1..], b[1..]);
    }
  }

  lemma {:induction false} LexAntisymmetric<T(!new)>(leq: (T, T) -> bool, a: seq<T>, b: seq<T>)
    requires Antisymmetric(leq)
    requires LexLeq(leq, a, b) && LexLeq(leq, b, a)
    ensures a == b
  {
    if a != [] && b != [] {
      if a[0] == b[0] {
        LexAntisymmetric(leq, a[1..], b[1..]);
        assert a == [a[0]] + a[1..] && b == [b[0]] + b[1..];
      }
    }
  }

  lemma {:induction false} LexTransitive<T(!new)>(leq: (T, T) -> bool, a: seq<T>, b: seq<T>, c: seq<T>)
    requires TotalPreorder(leq) && Antisymmetric(leq)
    requires LexLeq(leq, a, b) && LexLeq(leq, b, c)
    ensures LexLeq(leq, a, c)
  {
    if a != [] {
      if a[0] == b[0] && b[0] == c[0] {
        LexTransitive(leq, a[1..], b[1..], c[1..]);
      }
    }
  }

  predicate CharLeq(c: char, d: char) {
    c <= d
  }

  predicate StrLeq(a: string, b: string) {
    LexLeq(CharLeq, a, b)
  }

  predicate PathLeq(a: seq<string>, b: seq<string>) {
    LexLeq(StrLeq, a, b)
  }

  lemma StrLeqIsTotalOrder()
    ensures TotalPreorder(StrLeq) && Antisymmetric(StrLeq)
  {
    forall a, b ensures StrLeq(a, b) || StrLeq(b, a) {
      LexTotal(CharLeq, a, b);
    }
    forall a, b, c | StrLeq(a, b) && StrLeq(b, c) ensures StrLeq(a, c) {
      LexTransitive(CharLeq, a, b, c);
    }
    forall a, b | StrLeq(a, b) && StrLeq(b, a) ensures a == b {
      LexAntisymmetric(CharLeq, a, b);
    }
  }

  lemma PathLeqIsTotalPreorder()
    ensures TotalPreorder(PathLeq)
  {
    StrLeqIsTotalOrder();
    forall a, b ensures PathLeq(a, b) || PathLeq(b, a) {
      LexTotal(StrLeq, a, b);
    }
    forall a, b, c | PathLeq(a, b) && PathLeq(b, c) ensures PathLeq(a, c) {
      LexTransitive(StrLeq, a, b, c);
    }
  }
}
