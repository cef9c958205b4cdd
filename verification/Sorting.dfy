/** A stable sort under any total preorder: the `sort`/`sorted` the folds and loops rely on. */
module Sorting {

  ghost predicate TotalPreorder<T(!new)>(leq: (T, T) -> bool) {
    && (forall x, y :: leq(x, y) || leq(y, x))
    && (forall x, y, z :: leq(x, y) && leq(y, z) ==> leq(x, z))
  }

  ghost predicate SortedBy<T>(leq: (T, T) -> bool, s: seq<T>) {
    forall i, j :: 0 <= i < j < |s| ==> leq(s[i], s[j])
  }

  /** Insert after every element that is not above `e`: equal keys keep their order. */
  function Insert<T(==)>(leq: (T, T) -> bool, s: seq<T>, e: T): (r: seq<T>)
    ensures multiset(r) == multiset(s) + multiset{e}
  {
    if s == [] || leq(s[|s| - 1], e) then s + [e]
    else
      var front := Insert(leq, s[..|s| - 1], e);
      assert s == s[..|s| - 1] + [s[|s| - 1]];
      front + [s[|s| - 1]]
  }

  function SortBy<T(==)>(leq: (T, T) -> bool, s: seq<T>): (r: seq<T>)
    ensures multiset(r) == multiset(s)
  {
    if s == [] then []
    else
      assert s == s[..|s| - 1] + [s[|s| - 1]];
      Insert(leq, SortBy(leq, s[..|s| - 1]), s[|s| - 1])
  }

  lemma {:induction false} InsertSorted<T(!new)>(leq: (T, T) -> bool, s: seq<T>, e: T)
    requires TotalPreorder(leq) && SortedBy(leq, s)
    ensures SortedBy(leq, Insert(leq, s, e))
  {
    if s != [] {
      var last := s[|s| - 1];
      if leq(last, e) {
        forall i | 0 <= i < |s| ensures leq(s[i], e) {
          assert i < |s| - 1 ==> leq(s[i], last);
        }
      } else {
        InsertSorted(leq, s[..|s| - 1], e);
        var front := Insert(leq, s[..|s| - 1], e);
        forall i | 0 <= i < |front| ensures leq(front[i], last) {
          assert front[i] in multiset(front);
        }
      }
    }
  }

  lemma {:induction false} SortBySorts<T(!new)>(leq: (T, T) -> bool, s: seq<T>)
    requires TotalPreorder(leq)
    ensures SortedBy(leq, SortBy(leq, s))
    ensures forall e :: e in SortBy(leq, s) <==> e in s
  {
    if s != [] {
      SortBySorts(leq, s[..|s| - 1]);
      InsertSorted(leq, SortBy(leq, s[..|s| - 1]), s[|s| - 1]);
    }
    SameMembers(s, SortBy(leq, s));
  }

  lemma SameMembers<T>(a: seq<T>, b: seq<T>)
    requires multiset(a) == multiset(b)
    ensures forall e :: e in a <==> e in b
  {
    forall e ensures e in a <==> e in b {
      assert e in a <==> e in multiset(a);
      assert e in b <==> e in multiset(b);
    }
  }

  lemma MultisetFront<T>(s: seq<T>)
    requires s != []
    ensures multiset(s[..|s| - 1]) == multiset(s) - multiset{s[|s| - 1]}
  {
    assert s == s[..|s| - 1] + [s[|s| - 1]];
  }

  lemma TopOfSorted<T(!new)>(leq: (T, T) -> bool, s: seq<T>, e: T)
    requires TotalPreorder(leq) && SortedBy(leq, s) && e in s
    ensures leq(e, s[|s| - 1])
  {
    var i :| 0 <= i < |s| && s[i] == e;
  }

  /** No two different members share a place in the order. */
  ghost predicate NoTies<T>(leq: (T, T) -> bool, a: seq<T>) {
    forall x, y :: x in a && y in a && leq(x, y) && leq(y, x) ==> x == y
  }

  lemma FrontKeeps<T>(leq: (T, T) -> bool, a: seq<T>)
    requires a != []
    ensures SortedBy(leq, a) ==> SortedBy(leq, a[..|a| - 1])
    ensures NoTies(leq, a) ==> NoTies(leq, a[..|a| - 1])
  {
  }

  lemma SameTop<T(!new)>(leq: (T, T) -> bool, a: seq<T>, b: seq<T>)
    requires TotalPreorder(leq) && SortedBy(leq, a) && SortedBy(leq, b) && NoTies(leq, a)
    requires multiset(a) == multiset(b) && a != [] && b != []
    ensures a[|a| - 1] == b[|b| - 1]
  {
    hide TotalPreorder, SortedBy;
    SameMembers(a, b);
    TopOfSorted(leq, a, b[|b| - 1]);
    TopOfSorted(leq, b, a[|a| - 1]);
  }

  /** Two sorted arrangements of the same members are one sequence when no two members tie. */
  lemma {:induction false} ArrangementUnique<T(!new)>(leq: (T, T) -> bool, a: seq<T>, b: seq<T>)
    requires TotalPreorder(leq) && SortedBy(leq, a) && SortedBy(leq, b) && NoTies(leq, a)
    requires multiset(a) == multiset(b)
    ensures a == b
  {
    hide TotalPreorder, SortedBy, NoTies;
    assert |a| == |multiset(a)| && |b| == |multiset(b)|;
    if a != [] {
      SameTop(leq, a, b);
      MultisetFront(a);
      MultisetFront(b);
      FrontKeeps(leq, a);
      FrontKeeps(leq, b);
      ArrangementUnique(leq, a[..|a| - 1], b[..|b| - 1]);
      assert a == a[..|a| - 1] + [a[|a| - 1]] && b == b[..|b| - 1] + [b[|b| - 1]];
    }
  }

  /** Sorting a sorted sequence changes nothing. */
  lemma {:induction false} SortOfSorted<T(!new)>(leq: (T, T) -> bool, s: seq<T>)
    requires SortedBy(leq, s)
    ensures SortBy(leq, s) == s
  {
    if s != [] {
      SortOfSorted(leq, s[..|s| - 1]);
      assert s == s[..|s| - 1] + [s[|s| - 1]];
    }
  }
}
