/** Containment decisions: does some single active grant contain the whole request? */
module Evaluator {
  import opened Scopes
  import opened Lattice
  import opened Resolver

  /** The two declared containment tables. */
  datatype Orders = Orders(use: Order, model: Order)

  ghost predicate ValidOrders(o: Orders) {
    PartialOrder(o.use) && PartialOrder(o.model)
  }

  /** What the schema guarantees of any scope that exists: known vocabulary, well-formed window. */
  predicate ValidScope(o: Orders, s: Scope) {
    s.useType in o.use && s.modelClass in o.model && WellFormed(s)
  }

  /** permits()' question about a window: is it open right now? */
  predicate IsScopeCurrent(s: Scope, at: Instant) {
    if at < s.validFrom then false
    else if s.validUntil.Some? && at > s.validUntil.value then false
    else true
  }

  /** The cascade's question about a window: has it closed for good? */
  predicate ScopeWindowHasClosed(s: Scope, at: Instant) {
    s.validUntil.Some? && at > s.validUntil.value
  }

  /** Closed is forever, and is exactly "not current now nor at any later instant". */
  lemma ClosedMeansNeverCurrentAgain(s: Scope, at: Instant)
    requires WellFormed(s)
    ensures ScopeWindowHasClosed(s, at) <==> forall t :: at <= t ==> !IsScopeCurrent(s, t)
  {
    if !ScopeWindowHasClosed(s, at) {
      var t := if at < s.validFrom then s.validFrom else at;
      assert IsScopeCurrent(s, t);
    }
  }

  const WORLDWIDE := "WW"

  /** An empty list and a list holding WW both mean "everywhere". */
  predicate Unbounded(territory: seq<string>) {
    territory == [] || WORLDWIDE in territory
  }

  // ------------------------------------------------------------------
  // What a scope means: the set of single uses it covers.
  // ------------------------------------------------------------------

  datatype Point = Point(use: string, model: string, commercial: bool, territory: string, instant: Instant)

  ghost predicate Covered(o: Orders, s: Scope, p: Point) {
    && Contains(o.use, s.useType, p.use)
    && Contains(o.model, s.modelClass, p.model)
    && (p.commercial ==> s.commercial)
    && (Unbounded(s.territory) || p.territory in s.territory)
    && s.validFrom <= p.instant
    && (s.validUntil.Some? ==> p.instant <= s.validUntil.value)
  }

  /** Every single use `inner` covers is one `outer` covers. */
  ghost predicate Inside(o: Orders, inner: Scope, outer: Scope) {
    forall p :: Covered(o, inner, p) ==> Covered(o, outer, p)
  }

  /** Some single use is covered at that very instant. */
  ghost predicate OpenAt(o: Orders, s: Scope, at: Instant) {
    exists p :: Covered(o, s, p) && p.instant == at
  }

  /** The currency test asks exactly whether the scope covers anything at the instant. */
  lemma CurrentIffOpen(o: Orders, s: Scope, at: Instant)
    requires ValidOrders(o) && ValidScope(o, s)
    ensures IsScopeCurrent(s, at) <==> OpenAt(o, s, at)
  {
    var t := if s.territory == [] then WORLDWIDE else s.territory[0];
    var p := Point(s.useType, s.modelClass, false, t, at);
    assert IsScopeCurrent(s, at) ==> Covered(o, s, p) && p.instant == at;
  }

  /** This single grant, current at `at`, contains the whole request. */
  ghost predicate Admits(o: Orders, grant: Scope, requested: Scope, at: Instant) {
    IsScopeCurrent(grant, at) && Inside(o, requested, grant)
  }

  ghost predicate Permitted(o: Orders, grants: seq<GrantEvent>, requested: Scope, at: Instant) {
    exists g :: g in grants && Admits(o, g.scope, requested, at)
  }

  // ------------------------------------------------------------------
  // The five dimensions decide the set inclusion.
  // ------------------------------------------------------------------

  predicate WindowFits(requested: Scope, grant: Scope) {
    && grant.validFrom <= requested.validFrom
    && (grant.validUntil.Some? ==> requested.validUntil.Some? && requested.validUntil.value <= grant.validUntil.value)
  }

  ghost predicate TerritoryFits(requested: seq<string>, granted: seq<string>) {
    Unbounded(granted) || (requested != [] && forall t :: t in requested ==> t in granted)
  }

  lemma InsideMeansTerritory(o: Orders, requested: Scope, grant: Scope)
    requires ValidOrders(o) && ValidScope(o, requested) && Inside(o, requested, grant)
    ensures TerritoryFits(requested.territory, grant.territory)
  {
    if !Unbounded(grant.territory) {
      var everywhere := Point(requested.useType, requested.modelClass, false, WORLDWIDE, requested.validFrom);
      assert Covered(o, requested, everywhere) ==> Covered(o, grant, everywhere);
      forall t | t in requested.territory ensures t in grant.territory {
        var here := everywhere.(territory := t);
        assert Covered(o, requested, here) ==> Covered(o, grant, here);
      }
    }
  }

  lemma InsideMeansWindow(o: Orders, requested: Scope, grant: Scope)
    requires ValidOrders(o) && ValidScope(o, requested) && Inside(o, requested, grant)
    ensures WindowFits(requested, grant)
  {
    var t := if requested.territory == [] then WORLDWIDE else requested.territory[0];
    var first := Point(requested.useType, requested.modelClass, false, t, requested.validFrom);
    assert Covered(o, requested, first) ==> Covered(o, grant, first);
    if grant.validUntil.Some? {
      var last := first.(instant :=
        if requested.validUntil.Some? then requested.validUntil.value
        else if requested.validFrom > grant.validUntil.value then requested.validFrom else grant.validUntil.value + 1);
      assert Covered(o, requested, last) ==> Covered(o, grant, last);
    }
  }

  /** The set inclusion holds exactly when all five dimension tests pass. */
  lemma InsideIffEveryDimension(o: Orders, requested: Scope, grant: Scope)
    requires ValidOrders(o) && ValidScope(o, requested)
    ensures Inside(o, requested, grant) <==>
      && WindowFits(requested, grant)
      && Contains(o.use, grant.useType, requested.useType)
      && Contains(o.model, grant.modelClass, requested.modelClass)
      && (requested.commercial ==> grant.commercial)
      && TerritoryFits(requested.territory, grant.territory)
  {
    if Inside(o, requested, grant) {
      InsideMeansTerritory(o, requested, grant);
      InsideMeansWindow(o, requested, grant);
      var t := if requested.territory == [] then WORLDWIDE else requested.territory[0];
      var p := Point(requested.useType, requested.modelClass, requested.commercial, t, requested.validFrom);
      assert Covered(o, requested, p) ==> Covered(o, grant, p);
    } else {
      var p :| Covered(o, requested, p) && !Covered(o, grant, p);
      assert Contains(o.use, grant.useType, requested.useType) ==> Contains(o.use, grant.useType, p.use);
      assert Contains(o.model, grant.modelClass, requested.modelClass) ==> Contains(o.model, grant.modelClass, p.model);
    }
  }

  /** A grant admits a request exactly when it covers something now and everything the request asks for. */
  lemma AdmitsIff(o: Orders, grant: Scope, requested: Scope, at: Instant)
    requires ValidOrders(o) && ValidScope(o, requested)
    ensures Admits(o, grant, requested, at) <==> OpenAt(o, grant, at) && Inside(o, requested, grant)
  {
    if Admits(o, grant, requested, at) {
      InsideIffEveryDimension(o, requested, grant);
      var t := if grant.territory == [] then WORLDWIDE else grant.territory[0];
      assert Covered(o, grant, Point(requested.useType, requested.modelClass, false, t, at));
    }
  }

  // ------------------------------------------------------------------
  // permits()
  // ------------------------------------------------------------------

  datatype Evaluation = Evaluation(permitted: bool, matchingGrantId: Option<string>, attributionRequired: bool)

  /** Either an evaluation, or the ValueError raised on an event that is not a folded active grant. */
  datatype Answer = Evaluated(result: Evaluation) | NotFolded(kind: Kind, grantId: string)

  ghost predicate AllGranted(grants: seq<GrantEvent>) {
    forall g :: g in grants ==> g.kind == Granted
  }

  /** `answer` is what a single-grant, first-match evaluation must return. */
  ghost predicate AnswersFor(o: Orders, grants: seq<GrantEvent>, requested: Scope, at: Instant, answer: Answer) {
    match answer
    case NotFolded(kind, gid) =>
      exists i :: 0 <= i < |grants| && grants[i].kind == kind != Granted && grants[i].grantId == gid
        && AllGranted(grants[..i])
    case Evaluated(r) =>
      && AllGranted(grants)
      && (r.permitted <==> Permitted(o, grants, requested, at))
      && (!r.permitted ==> r == Evaluation(false, None, false))
      && (r.permitted ==>
          exists i :: 0 <= i < |grants| && FirstMatch(o, grants, requested, at, i) && r == Matched(grants[i]))
  }

  /** Grant i admits the request and no earlier one does. */
  ghost predicate FirstMatch(o: Orders, grants: seq<GrantEvent>, requested: Scope, at: Instant, i: nat)
    requires i < |grants|
  {
    Admits(o, grants[i].scope, requested, at) && !Permitted(o, grants[..i], requested, at)
  }

  /** The positive answer: the grant is named and its attribution obligation is carried out. */
  function Matched(g: GrantEvent): Evaluation {
    Evaluation(true, Some(g.grantId), g.scope.attributionRequired)
  }

  /** Read off the points alone: some grant covers something now, and the whole request. */
  ghost predicate PermittedNow(o: Orders, grants: seq<GrantEvent>, requested: Scope, at: Instant) {
    exists g :: g in grants && OpenAt(o, g.scope, at) && Inside(o, requested, g.scope)
  }

  /** The answer names such a grant, and carries its attribution duty. */
  ghost predicate Names(o: Orders, grants: seq<GrantEvent>, requested: Scope, at: Instant, r: Evaluation) {
    exists g :: g in grants && OpenAt(o, g.scope, at) && Inside(o, requested, g.scope)
      && r.matchingGrantId == Some(g.grantId) && r.attributionRequired == g.scope.attributionRequired
  }

  method Permits(o: Orders, activeGrants: seq<GrantEvent>, requested: Scope, at: Instant) returns (answer: Answer)
    requires ValidOrders(o) && ValidScope(o, requested)
    ensures AnswersFor(o, activeGrants, requested, at, answer)
    ensures answer.Evaluated? ==> (answer.result.permitted <==> PermittedNow(o, activeGrants, requested, at))
    ensures answer.Evaluated? && answer.result.permitted ==> Names(o, activeGrants, requested, at, answer.result)
  {
    forall g: Scope ensures Admits(o, g, requested, at) <==> OpenAt(o, g, at) && Inside(o, requested, g) {
      AdmitsIff(o, g, requested, at);
    }
    hide Inside, Covered, PartialOrder, OpenAt, IsScopeCurrent;
    for i := 0 to |activeGrants|
      invariant AllGranted(activeGrants[..i])
    {
      if activeGrants[i].kind != Granted {
        return NotFolded(activeGrants[i].kind, activeGrants[i].grantId);
      }
    }
    for i := 0 to |activeGrants|
      invariant !Permitted(o, activeGrants[..i], requested, at)
    {
      assert activeGrants[..i + 1] == activeGrants[..i] + [activeGrants[i]];
      var gScope := activeGrants[i].scope;
      EmptySeqSet(gScope.territory);
      EmptySeqSet(requested.territory);
      InsideIffEveryDimension(o, requested, gScope);
      if !IsScopeCurrent(gScope, at) {
        continue;
      }
      if requested.validFrom < gScope.validFrom {
        continue;
      }
      if gScope.validUntil.Some? {
        if requested.validUntil.None? {
          continue;
        }
        if requested.validUntil.value > gScope.validUntil.value {
          continue;
        }
      }
      if !Contains(o.use, gScope.useType, requested.useType) {
        continue;
      }
      if !Contains(o.model, gScope.modelClass, requested.modelClass) {
        continue;
      }
      if requested.commercial && !gScope.commercial {
        continue;
      }
      var grantedTerritories := set t | t in gScope.territory;
      if grantedTerritories != {} && WORLDWIDE !in grantedTerritories {
        var requestedTerritories := set t | t in requested.territory;
        if requestedTerritories == {} {
          continue;
        }
        if !(requestedTerritories <= grantedTerritories) {
          assert exists t :: t in requested.territory && t !in gScope.territory;
          continue;
        }
        assert forall t :: t in requested.territory ==> t in requestedTerritories;
      }
      assert TerritoryFits(requested.territory, gScope.territory);
      assert FirstMatch(o, activeGrants, requested, at, i);
      return Evaluated(Evaluation(true, Some(activeGrants[i].grantId), gScope.attributionRequired));
    }
    assert activeGrants[..|activeGrants|] == activeGrants;
    return Evaluated(Evaluation(false, None, false));
  }

  lemma EmptySeqSet(s: seq<string>)
    ensures (set t | t in s) == {} <==> s == []
  {
    var all := set t | t in s;
    assert s != [] ==> s[0] in all;
    if s == [] {
      assert forall t :: t !in all;
    }
  }

  // ------------------------------------------------------------------
  // Consequences
  // ------------------------------------------------------------------

  /** More grants permit no less; a smaller request is refused no more. */
  lemma MonotoneInGrantsAntitoneInRequest(o: Orders, grants: seq<GrantEvent>, more: seq<GrantEvent>, requested: Scope,
                                          smaller: Scope, at: Instant)
    requires Permitted(o, grants, requested, at)
    requires forall g :: g in grants ==> g in more
    requires Inside(o, smaller, requested)
    ensures Permitted(o, more, smaller, at)
  {
    var g :| g in grants && Admits(o, g.scope, requested, at);
    assert Inside(o, smaller, g.scope);
    assert Admits(o, g.scope, smaller, at);
  }

  /** Folding first, the guard never fires, and the answer is about the greatest event of some one grant. */
  lemma DecisionOverTheLog(o: Orders, log: seq<GrantEvent>, asOf: Option<Instant>, requested: Scope, at: Instant,
                           answer: Answer)
    requires UniqueIds(log)
    requires AnswersFor(o, ActiveGrants(log, asOf), requested, at, answer)
    ensures answer.Evaluated?
    ensures answer.result.permitted <==>
      exists e: GrantEvent :: IsLast(log, e.grantId, asOf, e) && e.kind == Granted && Admits(o, e.scope, requested, at)
  {
    ActiveGrantsProjectTheFold(log, asOf);
    hide ActiveGrants, Inside, IsLast;
    var active := ActiveGrants(log, asOf);
    assert AllGranted(active);
  }
}
