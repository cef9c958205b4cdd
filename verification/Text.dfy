/** Python's order on strings, by code point, and `sorted()` over a set of strings. */
module Text {

  /** `a <= b` on Python strings. */
  predicate Leq(a: string, b: string) {
    a == [] || (b != [] && (a[0] < b[0] || (a[0] == b[0] && Leq(a[1..], b[1..]))))
  }

  /** The strings agree up to `k`, where the first has the lower code point. */
  predicate FirstDiffersAt(a: string, b: string, k: nat) {
    k < |a| && k < |b| && a[..k] == b[..k] && a[k] < b[k]
  }

  lemma AgreeAtHead(a: string, b: string)
    ensures forall k: nat :: FirstDiffersAt(a, b, k) && k > 0 ==> a[0] == b[0]
  {
    forall k: nat | FirstDiffersAt(a, b, k) && k > 0 ensures a[0] == b[0] {
      assert a[0] == a[..k][0] && b[0] == b[..k][0];
    }
  }

  /** Prefixes come first; otherwise the first differing code point decides. */
  lemma {:induction false} LeqIff(a: string, b: string)
    ensures Leq(a, b) <==> a <= b || exists k: nat :: FirstDiffersAt(a, b, k)
  {
    AgreeAtHead(a, b);
    if a != [] && b != [] && a[0] == b[0] {
      LeqIff(a[1..], b[1..]);
      assert a == [a[0]] + a[1..] && b == [b[0]] + b[1..];
      assert a <= b <==> a[1..] <= b[1..];
      forall k: nat | FirstDiffersAt(a[1..], b[1..], k) ensures FirstDiffersAt(a, b, k + 1) {
        assert a[..k + 1] == [a[0]] + a[1..][..k] && b[..k + 1] == [b[0]] + b[1..][..k];
      }
      forall k: nat | FirstDiffersAt(a, b, k) ensures k > 0 && FirstDiffersAt(a[1..], b[1..], k - 1) {
        assert a[1..][..k - 1] == a[..k][1..] && b[1..][..k - 1] == b[..k][1..];
      }
    } else if a != [] && b != [] {
      assert a[..0] == b[..0];
      assert a[0] < b[0] ==> FirstDiffersAt(a, b, 0);
    }
  }

  lemma {:induction false} LeqTotal(a: string, b: string)
    ensures Leq(a, b) || Leq(b, a)
  {
    if a != [] && b != [] && a[0] == b[0] {
      LeqTotal(a[1..], b[1..]);
    }
  }

  lemma {:induction false} LeqAntisymmetric(a: string, b: string)
    requires Leq(a, b) && Leq(b, a)
    ensures a == b
  {
    if a != [] {
      LeqAntisymmetric(a[1..], b[1..]);
      assert a == [a[0]] + a[1..] && b == [b[0]] + b[1..];
    }
  }

  lemma {:induction false} LeqTransitive(a: string, b: string, c: string)
    requires Leq(a, b) && Leq(b, c)
    ensures Leq(a, c)
  {
    if a != [] && b[0] == a[0] && c[0] == b[0] {
      LeqTransitive(a[1..], b[1..], c[1..]);
    }
  }

  lemma {:induction false} LeastExists(s: set<string>)
    requires s != {}
    ensures exists m :: m in s && forall x :: x in s ==> Leq(m, x)
  {
    var y :| y in s;
    LeqTotal(y, y);
    if s - {y} == {} {
      assert forall x :: x in s ==> x == y || x in s - {y};
    } else {
      LeastExists(s - {y});
      var m :| m in s - {y} && forall x :: x in s - {y} ==> Leq(m, x);
      LeqTotal(m, y);
      if Leq(m, y) {
        assert forall x :: x in s ==> x == y || x in s - {y};
      } else {
        forall x | x in s ensures Leq(y, x) {
          if x != y {
            LeqTransitive(y, m, x);
          }
        }
      }
    }
  }

  /** Strictly ascending, hence without repetition. */
  ghost predicate Ascending(q: seq<string>) {
    forall i, j :: 0 <= i < j < |q| ==> Leq(q[i], q[j]) && q[i] != q[j]
  }

  /** `sorted(s)` for a set of strings. */
  function Sorted(s: set<string>): (q: seq<string>)
    ensures Ascending(q)
    ensures forall x :: x in q <==> x in s
    ensures |q| == |s|
  {
    if s == {} then []
    else
      LeastExists(s);
      assert forall m, n | m in s && n in s && Leq(m, n) && Leq(n, m) :: m == n by {
        forall m, n | m in s && n in s && Leq(m, n) && Leq(n, m) ensures m == n {
          LeqAntisymmetric(m, n);
        }
      }
      var m :| m in s && forall x :: x in s ==> Leq(m, x);
      [m] + Sorted(s - {m})
  }
}
