/** The scope lattice declared as data, and what is derived from that data. */
module Lattice {
  import opened Text

  /** A use type (or model class) mapped to everything it contains. */
  type Order = map<string, set<string>>

  /** The data lookup: an unknown key contains nothing, not even itself. */
  predicate Contains(c: Order, granted: string, requested: string) {
    granted in c && requested in c[granted]
  }

  /** What the declared table must be for "contains" to be an order; nothing else is assumed of it. */
  ghost predicate PartialOrder(c: Order) {
    && (forall x :: x in c ==> x in c[x])
    && (forall x, y :: Contains(c, x, y) ==> y in c)
    && (forall x, y, z :: Contains(c, x, y) && Contains(c, y, z) ==> Contains(c, x, z))
    && (forall x, y :: Contains(c, x, y) && Contains(c, y, x) ==> x == y)
  }

  /** `USE_TYPE_CONTAINMENT.get(u, {u})`: the uses lost with `u`. */
  function Reach(c: Order, u: string): set<string> {
    if u in c then c[u] else {u}
  }

  /** y sits directly below x: contained, different, and nothing in between. */
  ghost predicate Covers(c: Order, x: string, y: string) {
    && Contains(c, x, y) && y != x
    && !exists z :: z != x && z != y && Contains(c, x, z) && Contains(c, z, y)
  }

  /** The Hasse edges below `u`, in string order. */
  method UseTypeCovers(c: Order, u: string) returns (covers: seq<string>)
    ensures Ascending(covers)
    ensures forall y :: y in covers <==> Covers(c, u, y)
  {
    var closure := (if u in c then c[u] else {}) - {u};
    var found: set<string> := {};
    var todo := closure;
    while todo != {}
      invariant todo <= closure
      invariant forall y :: y in found <==> y in closure - todo && Covers(c, u, y)
      decreases todo
    {
      var candidate :| candidate in todo;
      todo := todo - {candidate};
      var intermediates := set z | z in closure && z != candidate && z != u && Contains(c, z, candidate);
      if intermediates == {} {
        assert forall z :: z in closure && z != candidate && z != u && Contains(c, z, candidate) ==> z in intermediates;
        found := found + {candidate};
      } else {
        var z :| z in intermediates;
        assert Contains(c, u, z) && Contains(c, z, candidate);
      }
    }
    covers := Sorted(found);
  }

  datatype Derived = Derived(scope: string, parent: string, reason: string)

  const DIRECT := "Directly revoked"

  /** The reason attached to a derived scope: parent, superset sign, child. */
  function EdgeReason(parent: string, child: string): string {
    parent + " \U{2283} " + child
  }

  function Scopes(chain: seq<Derived>): (q: seq<string>)
    ensures |q| == |chain|
    ensures forall i :: 0 <= i < |q| ==> q[i] == chain[i].scope
  {
    seq(|chain|, i requires 0 <= i < |chain| => chain[i].scope)
  }

  /** Every entry but the first hangs off an earlier entry that covers it. */
  ghost predicate Derivation(c: Order, u: string, chain: seq<Derived>) {
    && |chain| > 0 && chain[0] == Derived(u, u, DIRECT)
    && (forall i, j :: 0 <= i < j < |chain| ==> chain[i].scope != chain[j].scope)
    && forall i :: 0 < i < |chain| ==> Linked(c, chain, i)
  }

  /** Entry i carries its reason, and its parent covers it and appears earlier. */
  ghost predicate Linked(c: Order, chain: seq<Derived>, i: nat)
    requires i < |chain|
  {
    && Covers(c, chain[i].parent, chain[i].scope)
    && chain[i].reason == EdgeReason(chain[i].parent, chain[i].scope)
    && exists j :: 0 <= j < i && chain[j].scope == chain[i].parent
  }

  /** The inner loop of the walk: each cover of `parent` not seen before is chained and queued. */
  method VisitChildren(c: Order, u: string, parent: string, covers: seq<string>,
                       chain0: seq<Derived>, seen0: set<string>, frontier0: seq<string>, ghost popped: nat)
    returns (chain: seq<Derived>, seen: set<string>, frontier: seq<string>)
    requires PartialOrder(c) && Walk(c, u, chain0, seen0, frontier0, popped)
    requires 0 < popped && Scopes(chain0)[popped - 1] == parent
    requires forall y :: y in covers ==> Covers(c, parent, y)
    ensures Walk(c, u, chain, seen, frontier, popped)
    ensures Scopes(chain0) <= Scopes(chain) && seen0 <= seen
    ensures forall i :: 0 <= i < |covers| ==> covers[i] in seen
  {
    hide PartialOrder, Covers, Linked, Derivation, Reach, EdgeReason;
    chain, seen, frontier := chain0, seen0, frontier0;
    for k := 0 to |covers|
      invariant Walk(c, u, chain, seen, frontier, popped)
      invariant Scopes(chain0) <= Scopes(chain) && seen0 <= seen
      invariant forall i :: 0 <= i < k ==> covers[i] in seen
    {
      var child := covers[k];
      if child !in seen {
        assert Scopes(chain)[popped - 1] == parent;
        WalkExtends(c, u, chain, seen, frontier, popped, parent, child);
        chain := chain + [Derived(child, parent, EdgeReason(parent, child))];
        seen := seen + {child};
        frontier := frontier + [child];
      }
    }
  }

  /** The scopes a revocation of `u` reaches, walked breadth first over the covering relation. */
  method UseTypeDerivationChain(c: Order, u: string) returns (chain: seq<Derived>)
    requires PartialOrder(c)
    ensures Derivation(c, u, chain)
    ensures forall s :: s in Scopes(chain) <==> s in Reach(c, u)
  {
    hide PartialOrder, Covers, Linked, Derivation, Reach, EdgeReason, Expanded;
    WalkStarts(c, u);
    chain := [Derived(u, u, DIRECT)];
    var seen := {u};
    var frontier := [u];
    ghost var popped := 0;
    while frontier != []
      invariant Walk(c, u, chain, seen, frontier, popped)
      invariant Expanded(c, Scopes(chain)[..popped], seen)
      decreases |Reach(c, u)| - popped
    {
      var parent := frontier[0];
      frontier := frontier[1..];
      var covers := UseTypeCovers(c, parent);
      SubsetSize(seen, Reach(c, u));
      ghost var done := Scopes(chain)[..popped];
      popped := popped + 1;
      assert Walk(c, u, chain, seen, frontier, popped);
      ghost var before := seen;
      chain, seen, frontier := VisitChildren(c, u, parent, covers, chain, seen, frontier, popped);
      assert Scopes(chain)[..popped] == done + [parent];
      ExpandedOneMore(c, done, parent, covers, before, seen);
    }
    WalkComplete(c, u, chain, seen);
  }

  /** The state of the walk: `popped` entries of the chain have left the frontier. */
  ghost predicate Walk(c: Order, u: string, chain: seq<Derived>, seen: set<string>, frontier: seq<string>,
                       popped: nat) {
    && Derivation(c, u, chain)
    && (forall s :: s in seen <==> s in Scopes(chain))
    && seen <= Reach(c, u) && |seen| == |chain|
    && popped <= |chain| && frontier == Scopes(chain)[popped..]
  }

  /** Every cover of every scope in `done` has been seen. */
  ghost predicate Expanded(c: Order, done: seq<string>, seen: set<string>) {
    forall p, y :: p in done && Covers(c, p, y) ==> y in seen
  }

  lemma ExpandedOneMore(c: Order, done: seq<string>, parent: string, covers: seq<string>, before: set<string>,
                        seen: set<string>)
    requires Expanded(c, done, before) && before <= seen
    requires forall y :: y in covers <==> Covers(c, parent, y)
    requires forall i :: 0 <= i < |covers| ==> covers[i] in seen
    ensures Expanded(c, done + [parent], seen)
  {
    forall p, y | p in done + [parent] && Covers(c, p, y) ensures y in seen {
      if p !in done {
        assert p == parent && y in covers;
      }
    }
  }

  lemma WalkStarts(c: Order, u: string)
    requires PartialOrder(c)
    ensures var chain := [Derived(u, u, DIRECT)];
      Walk(c, u, chain, {u}, [u], 0) && Expanded(c, Scopes(chain)[..0], {u})
  {
  }

  lemma WalkComplete(c: Order, u: string, chain: seq<Derived>, seen: set<string>)
    requires PartialOrder(c)
    requires Walk(c, u, chain, seen, [], |chain|)
    requires Expanded(c, Scopes(chain)[..|chain|], seen)
    ensures forall s :: s in Scopes(chain) <==> s in Reach(c, u)
  {
    assert Scopes(chain)[..|chain|] == Scopes(chain);
    assert u in seen by { assert Scopes(chain)[0] == u; }
    forall s | s in Reach(c, u) ensures s in seen {
      if u in c {
        ClosedUnderCovers(c, seen, u, s);
      }
    }
  }

  lemma WalkExtends(c: Order, u: string, chain: seq<Derived>, seen: set<string>, frontier: seq<string>, popped: nat,
                    parent: string, child: string)
    requires PartialOrder(c)
    requires Walk(c, u, chain, seen, frontier, popped)
    requires parent in Scopes(chain) && child !in seen && Covers(c, parent, child)
    ensures var longer := chain + [Derived(child, parent, EdgeReason(parent, child))];
      && Walk(c, u, longer, seen + {child}, frontier + [child], popped)
      && Scopes(longer) == Scopes(chain) + [child]
  {
    ExtendDerivation(c, u, chain, parent, child);
    ReachStep(c, u, parent, child);
    assert (Scopes(chain) + [child])[popped..] == Scopes(chain)[popped..] + [child];
  }

  lemma ReachStep(c: Order, u: string, parent: string, child: string)
    requires PartialOrder(c)
    requires parent in Reach(c, u) && Covers(c, parent, child)
    ensures child in Reach(c, u)
  {
    if u in c {
      assert Contains(c, u, parent) && Contains(c, parent, child);
      assert Contains(c, u, child);
    }
  }

  lemma ExtendDerivation(c: Order, u: string, chain: seq<Derived>, parent: string, child: string)
    requires Derivation(c, u, chain)
    requires parent in Scopes(chain) && child !in Scopes(chain) && Covers(c, parent, child)
    ensures var longer := chain + [Derived(child, parent, EdgeReason(parent, child))];
      Derivation(c, u, longer) && Scopes(longer) == Scopes(chain) + [child]
  {
    var longer := chain + [Derived(child, parent, EdgeReason(parent, child))];
    hide Covers, EdgeReason;
    assert forall i :: 0 <= i < |chain| ==> chain[i].scope == Scopes(chain)[i];
    assert Linked(c, longer, |chain|) by {
      var k :| 0 <= k < |chain| && Scopes(chain)[k] == parent;
      assert longer[k].scope == parent;
    }
    forall i | 0 < i < |chain| ensures Linked(c, longer, i) {
      assert Linked(c, chain, i);
      var j :| 0 <= j < i && chain[j].scope == chain[i].parent;
      assert longer[j].scope == longer[i].parent;
    }
    assert Scopes(longer) == Scopes(chain) + [child];
  }

  lemma {:induction false} SubsetSize<T>(a: set<T>, b: set<T>)
    requires a <= b
    ensures |a| <= |b|
    ensures a != b ==> |a| < |b|
    decreases a
  {
    if a != {} {
      var x :| x in a;
      SubsetSize(a - {x}, b - {x});
    } else if b != {} {
      var y :| y in b;
      assert |b - {y}| == |b| - 1;
    }
  }

  /** Between any x and a strictly smaller y there is a cover of x at or above y. */
  lemma {:induction false} CoverAbove(c: Order, x: string, z: string, y: string) returns (w: string)
    requires PartialOrder(c)
    requires Contains(c, x, z) && z != x && Contains(c, z, y)
    ensures Covers(c, x, w) && Contains(c, w, y)
    decreases |c[x]| - |c[z]|
  {
    if Covers(c, x, z) {
      w := z;
    } else {
      var v :| v != x && v != z && Contains(c, x, v) && Contains(c, v, z);
      assert c[z] <= c[v] by {
        forall q | q in c[z] ensures q in c[v] { assert Contains(c, z, q); }
      }
      assert v in c[v] && v !in c[z] by {
        assert Contains(c, z, v) <==> v in c[z];
      }
      SubsetSize(c[z], c[v]);
      assert c[v] <= c[x] by {
        forall q | q in c[v] ensures q in c[x] { assert Contains(c, v, q); }
      }
      SubsetSize(c[v], c[x]);
      w := CoverAbove(c, x, v, y);
    }
  }

  /** A set closed under the covering relation is closed under containment. */
  lemma {:induction false} ClosedUnderCovers(c: Order, seen: set<string>, x: string, y: string)
    requires PartialOrder(c)
    requires forall p, q :: p in seen && Covers(c, p, q) ==> q in seen
    requires x in seen && Contains(c, x, y)
    ensures y in seen
    decreases Reach(c, x)
  {
    if x != y {
      var w := CoverAbove(c, x, y, y);
      assert c[w] <= c[x] by {
        forall q | q in c[w] ensures q in c[x] { assert Contains(c, w, q); }
      }
      assert x !in c[w] by {
        assert Contains(c, w, x) <==> x in c[w];
      }
      ClosedUnderCovers(c, seen, w, y);
    }
  }
}
