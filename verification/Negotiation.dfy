/** The negotiation clamp: a proposal projected onto the artist's policy for one work. */
module Negotiation {
  import opened Scopes
  import opened Lattice
  import opened Evaluator
  import Text

  /** The most a buyer can be granted, per dimension. */
  datatype Ceiling = Ceiling(
    maxUseType: string,
    allowedModelClass: string,
    commercialAllowed: bool,
    territoryAllowed: seq<string>,
    maxDurationDays: Option<int>,
    attributionAlwaysRequired: bool,
    prohibitedUseTypes: seq<string>)

  const ALL_MODELS := "all_models"
  const DAY: int := 86_400_000_000

  datatype Dimension = UseType | ModelClass | Commercial | Territory | Attribution | Duration

  datatype Rejection = Prohibited | Incomparable | NoTerritory

  /** The three outcomes, and the ValidationError raised when the capped window would end before it begins. */
  datatype Outcome =
    | Agreed(offer: Scope)
    | Counter(offer: Scope, moved: seq<Dimension>)
    | Rejected(why: Rejection)
    | Malformed

  function SetOf(s: seq<string>): set<string> {
    set t | t in s
  }

  /** `territory or ["WW"]` */
  function OrWorldwide(t: seq<string>): seq<string> {
    if t == [] then [WORLDWIDE] else t
  }

  predicate UseMoves(o: Orders, p: Ceiling, req: Scope) {
    !Contains(o.use, p.maxUseType, req.useType)
  }

  predicate ModelMoves(p: Ceiling, req: Scope) {
    p.allowedModelClass != ALL_MODELS && req.modelClass != p.allowedModelClass
  }

  /** The territories both sides allow, when both are bounded. */
  function Shared(p: Ceiling, req: Scope): set<string> {
    SetOf(OrWorldwide(req.territory)) * SetOf(p.territoryAllowed)
  }

  predicate NoSharedTerritory(p: Ceiling, req: Scope) {
    WORLDWIDE !in p.territoryAllowed && WORLDWIDE !in OrWorldwide(req.territory) && Shared(p, req) == {}
  }

  predicate TerritoryMoves(p: Ceiling, req: Scope) {
    && WORLDWIDE !in p.territoryAllowed
    && (WORLDWIDE in OrWorldwide(req.territory) || Shared(p, req) != SetOf(OrWorldwide(req.territory)))
  }

  function ClampedTerritory(p: Ceiling, req: Scope): seq<string> {
    if !TerritoryMoves(p, req) then OrWorldwide(req.territory)
    else if WORLDWIDE in OrWorldwide(req.territory) then p.territoryAllowed
    else Text.Sorted(Shared(p, req))
  }

  function Cap(p: Ceiling, req: Scope): Instant
    requires p.maxDurationDays.Some?
  {
    req.validFrom + p.maxDurationDays.value * DAY
  }

  predicate DurationMoves(p: Ceiling, req: Scope) {
    p.maxDurationDays.Some? && (req.validUntil.None? || req.validUntil.value > Cap(p, req))
  }

  function ClampedScope(o: Orders, p: Ceiling, req: Scope): Scope {
    Scope(
      if UseMoves(o, p, req) then p.maxUseType else req.useType,
      if ModelMoves(p, req) then p.allowedModelClass else req.modelClass,
      req.commercial && p.commercialAllowed,
      req.attributionRequired || p.attributionAlwaysRequired,
      ClampedTerritory(p, req),
      req.validFrom,
      if DurationMoves(p, req) then Some(Cap(p, req)) else req.validUntil)
  }

  /** `d` is listed when it moved. */
  function When(moves: bool, d: Dimension): seq<Dimension> {
    if moves then [d] else []
  }

  function Moved(o: Orders, p: Ceiling, req: Scope): seq<Dimension> {
    When(UseMoves(o, p, req), UseType)
    + When(ModelMoves(p, req), ModelClass)
    + When(req.commercial && !p.commercialAllowed, Commercial)
    + When(TerritoryMoves(p, req), Territory)
    + When(p.attributionAlwaysRequired && !req.attributionRequired, Attribution)
    + When(DurationMoves(p, req), Duration)
  }

  function Clamp(o: Orders, p: Ceiling, req: Scope): Outcome {
    if req.useType in p.prohibitedUseTypes then Rejected(Prohibited)
    else if UseMoves(o, p, req) && !Contains(o.use, req.useType, p.maxUseType) then Rejected(Incomparable)
    else if NoSharedTerritory(p, req) then Rejected(NoTerritory)
    else if !WellFormed(ClampedScope(o, p, req)) then Malformed
    else if Moved(o, p, req) == [] then Agreed(ClampedScope(o, p, req))
    else Counter(ClampedScope(o, p, req), Moved(o, p, req))
  }

  method ClampToPolicy(o: Orders, p: Ceiling, req: Scope) returns (out: Outcome)
    ensures out == Clamp(o, p, req)
  {
    var clamped: seq<Dimension> := [];
    if req.useType in p.prohibitedUseTypes {
      return Rejected(Prohibited);
    }
    var useType := req.useType;
    if !Contains(o.use, p.maxUseType, req.useType) {
      if !Contains(o.use, req.useType, p.maxUseType) {
        return Rejected(Incomparable);
      }
      useType := p.maxUseType;
      clamped := clamped + [UseType];
    }
    assert clamped == When(UseMoves(o, p, req), UseType);
    var modelClass := req.modelClass;
    if p.allowedModelClass != ALL_MODELS && req.modelClass != p.allowedModelClass {
      modelClass := p.allowedModelClass;
    }
    clamped := clamped + When(ModelMoves(p, req), ModelClass);
    var commercial := req.commercial;
    if req.commercial && !p.commercialAllowed {
      commercial := false;
    }
    clamped := clamped + When(req.commercial && !p.commercialAllowed, Commercial);
    var territory, narrowed, empty := NarrowTerritory(p, req);
    if empty {
      return Rejected(NoTerritory);
    }
    clamped := clamped + When(narrowed, Territory);
    var attribution := req.attributionRequired || p.attributionAlwaysRequired;
    clamped := clamped + When(p.attributionAlwaysRequired && !req.attributionRequired, Attribution);
    var validUntil, capped := CapDuration(p, req);
    clamped := clamped + When(capped, Duration);
    hide TerritoryMoves, ClampedTerritory, NoSharedTerritory, DurationMoves, When, Cap;
    assert clamped == Moved(o, p, req);
    var offered := Scope(useType, modelClass, commercial, attribution, territory, req.validFrom, validUntil);
    assert offered == ClampedScope(o, p, req);
    hide Moved, ClampedScope;
    if !WellFormed(offered) {
      return Malformed;
    }
    if clamped == [] {
      return Agreed(offered);
    }
    return Counter(offered, clamped);
  }

  /** The territory part of the clamp: intersect, and report an empty intersection. */
  method NarrowTerritory(p: Ceiling, req: Scope) returns (territory: seq<string>, narrowed: bool, empty: bool)
    ensures empty <==> NoSharedTerritory(p, req)
    ensures !empty ==> territory == ClampedTerritory(p, req) && (narrowed <==> TerritoryMoves(p, req))
  {
    hide Text.Ascending;
    territory, narrowed, empty := OrWorldwide(req.territory), false, false;
    if WORLDWIDE !in p.territoryAllowed {
      var requested := SetOf(OrWorldwide(req.territory));
      if WORLDWIDE in requested {
        territory, narrowed := p.territoryAllowed, true;
      } else {
        var allowed := requested * SetOf(p.territoryAllowed);
        if allowed == {} {
          empty := true;
        } else if allowed != requested {
          territory, narrowed := Text.Sorted(allowed), true;
        }
      }
    }
  }

  /** The duration part of the clamp. */
  method CapDuration(p: Ceiling, req: Scope) returns (validUntil: Option<Instant>, capped: bool)
    ensures capped <==> DurationMoves(p, req)
    ensures validUntil == if DurationMoves(p, req) then Some(Cap(p, req)) else req.validUntil
  {
    validUntil, capped := req.validUntil, false;
    if p.maxDurationDays.Some? {
      var cap := req.validFrom + p.maxDurationDays.value * DAY;
      if validUntil.None? || validUntil.value > cap {
        validUntil, capped := Some(cap), true;
      }
    }
  }

  // ------------------------------------------------------------------
  // Which proposals are answered
  // ------------------------------------------------------------------

  /** Neither use contains the other. */
  predicate Apart(o: Orders, a: string, b: string) {
    !Contains(o.use, a, b) && !Contains(o.use, b, a)
  }

  /** Both sides are bounded and name no territory in common. */
  predicate NothingShared(asked: seq<string>, allowed: seq<string>) {
    !Unbounded(asked) && WORLDWIDE !in allowed && forall t :: t in asked ==> t !in allowed
  }

  /** Only the use and the territories decide whether a proposal is rejected, and on which ground. */
  lemma RejectedIff(o: Orders, p: Ceiling, req: Scope)
    ensures Clamp(o, p, req) == Rejected(Prohibited) <==> req.useType in p.prohibitedUseTypes
    ensures Clamp(o, p, req) == Rejected(Incomparable) <==>
      req.useType !in p.prohibitedUseTypes && Apart(o, req.useType, p.maxUseType)
    ensures Clamp(o, p, req) == Rejected(NoTerritory) <==>
      && req.useType !in p.prohibitedUseTypes && !Apart(o, req.useType, p.maxUseType)
      && NothingShared(req.territory, p.territoryAllowed)
  {
    OrWorldwideIsUnbounded(req.territory);
    if !Unbounded(req.territory) {
      assert forall t :: t in Shared(p, req) <==> t in req.territory && t in p.territoryAllowed;
      assert Shared(p, req) == {} <==> forall t :: t in req.territory ==> t !in p.territoryAllowed by {
        if Shared(p, req) != {} {
          var t :| t in Shared(p, req);
          assert t in req.territory;
        }
      }
    }
    assert NoSharedTerritory(p, req) <==> NothingShared(req.territory, p.territoryAllowed);
    hide NoSharedTerritory, NothingShared, Shared, WellFormed, ClampedScope, Moved;
  }

  /** Two proposals for one use and one list of territories are rejected alike, or neither is. */
  lemma RejectedAlike(o: Orders, p: Ceiling, a: Scope, b: Scope)
    requires a.useType == b.useType && a.territory == b.territory
    ensures Clamp(o, p, a).Rejected? || Clamp(o, p, b).Rejected? ==> Clamp(o, p, a) == Clamp(o, p, b)
  {
    RejectedIff(o, p, a);
    RejectedIff(o, p, b);
    hide NothingShared, Apart;
    EveryRejection(Clamp(o, p, a));
    EveryRejection(Clamp(o, p, b));
    hide Clamp;
  }

  lemma EveryRejection(out: Outcome)
    ensures out.Rejected? ==> out in {Rejected(Prohibited), Rejected(Incomparable), Rejected(NoTerritory)}
  {
    match out
    case Rejected(why) =>
      match why {
        case Prohibited =>
        case Incomparable =>
        case NoTerritory =>
      }
    case _ =>
  }

  /** The dimensions listed are those in which the offer differs from the request, each once and in order. */
  lemma MovedIffChanged(o: Orders, p: Ceiling, req: Scope)
    requires ValidOrders(o) && ValidScope(o, req) && KnownPolicy(o, p) && Clamp(o, p, req).Counter?
    ensures var out := Clamp(o, p, req);
      && (UseType in out.moved <==> out.offer.useType != req.useType)
      && (ModelClass in out.moved <==> out.offer.modelClass != req.modelClass)
      && (Commercial in out.moved <==> out.offer.commercial != req.commercial)
      && (Attribution in out.moved <==> out.offer.attributionRequired != req.attributionRequired)
      && (Duration in out.moved <==> out.offer.validUntil != req.validUntil)
      && (Territory in out.moved <==> out.offer.territory != OrWorldwide(req.territory) || EmptyListTrap(p, req))
      && out.offer.validFrom == req.validFrom
    ensures InOrder(Clamp(o, p, req).moved)
  {
    UnmovedTerritory(p, req);
    OrderReflexive(o, req, p);
    hide ClampedTerritory, TerritoryMoves, NoSharedTerritory, PartialOrder, EmptyListTrap;
    MovedMembers(o, p, req);
  }

  /** Where a dimension stands in the list. */
  function Place(d: Dimension): nat {
    match d
    case UseType => 0
    case ModelClass => 1
    case Commercial => 2
    case Territory => 3
    case Attribution => 4
    case Duration => 5
  }

  lemma MovedMembers(o: Orders, p: Ceiling, req: Scope)
    ensures var m := Moved(o, p, req);
      && (UseType in m <==> UseMoves(o, p, req)) && (ModelClass in m <==> ModelMoves(p, req))
      && (Commercial in m <==> req.commercial && !p.commercialAllowed) && (Territory in m <==> TerritoryMoves(p, req))
      && (Attribution in m <==> p.attributionAlwaysRequired && !req.attributionRequired)
      && (Duration in m <==> DurationMoves(p, req))
    ensures InOrder(Moved(o, p, req))
  {
    hide UseMoves, ModelMoves, TerritoryMoves, DurationMoves, When, InOrder;
    var front := When(UseMoves(o, p, req), UseType) + When(ModelMoves(p, req), ModelClass)
      + When(req.commercial && !p.commercialAllowed, Commercial);
    assert Moved(o, p, req) == front + When(TerritoryMoves(p, req), Territory)
      + When(p.attributionAlwaysRequired && !req.attributionRequired, Attribution)
      + When(DurationMoves(p, req), Duration);
    hide Moved;
    FirstDimensions(UseMoves(o, p, req), ModelMoves(p, req), req.commercial && !p.commercialAllowed);
    LastDimensions(front, TerritoryMoves(p, req), p.attributionAlwaysRequired && !req.attributionRequired,
                   DurationMoves(p, req));
  }

  lemma FirstDimensions(use: bool, model: bool, commercial: bool)
    ensures var m := When(use, UseType) + When(model, ModelClass) + When(commercial, Commercial);
      && InOrder(m) && (forall x :: x in m ==> Place(x) < Place(Territory))
      && (UseType in m <==> use) && (ModelClass in m <==> model) && (Commercial in m <==> commercial)
  {
  }

  lemma LastDimensions(front: seq<Dimension>, territory: bool, attribution: bool, duration: bool)
    requires InOrder(front) && forall x :: x in front ==> Place(x) < Place(Territory)
    ensures var m := front + When(territory, Territory) + When(attribution, Attribution) + When(duration, Duration);
      && InOrder(m) && (forall x :: Place(x) < Place(Territory) ==> (x in m <==> x in front))
      && (Territory in m <==> territory) && (Attribution in m <==> attribution) && (Duration in m <==> duration)
  {
    NextDimension(front, territory, Territory);
    NextDimension(front + When(territory, Territory), attribution, Attribution);
    NextDimension(front + When(territory, Territory) + When(attribution, Attribution), duration, Duration);
    hide InOrder, When;
  }

  predicate InOrder(m: seq<Dimension>) {
    forall i, j :: 0 <= i < j < |m| ==> Place(m[i]) < Place(m[j])
  }

  lemma NextDimension(front: seq<Dimension>, moves: bool, d: Dimension)
    requires (front == [] || InOrder(front)) && forall x :: x in front ==> Place(x) < Place(d)
    ensures InOrder(front + When(moves, d))
    ensures forall x :: x in front + When(moves, d) <==> x in front || (moves && x == d)
    ensures forall x :: x in front + When(moves, d) ==> Place(x) <= Place(d)
  {
  }

  // ------------------------------------------------------------------
  // What the policy allows
  // ------------------------------------------------------------------

  /** The scope lies under the ceiling, as the policy's own words read. */
  predicate WithinPolicy(o: Orders, p: Ceiling, s: Scope) {
    && Contains(o.use, p.maxUseType, s.useType)
    && (p.allowedModelClass == ALL_MODELS || Contains(o.model, p.allowedModelClass, s.modelClass))
    && (s.commercial ==> p.commercialAllowed)
    && (WORLDWIDE in p.territoryAllowed
        || (!Unbounded(s.territory) && forall t :: t in s.territory ==> t in p.territoryAllowed))
    && (p.maxDurationDays.Some? ==>
        s.validUntil.Some? && s.validUntil.value - s.validFrom <= p.maxDurationDays.value * DAY)
  }

  predicate Offers(out: Outcome) {
    out.Agreed? || out.Counter?
  }

  ghost predicate KnownPolicy(o: Orders, p: Ceiling) {
    p.maxUseType in o.use && p.allowedModelClass in o.model
  }

  /** The request asks for everywhere and the policy names nowhere: the offered empty list reads as "everywhere". */
  predicate EmptyListTrap(p: Ceiling, req: Scope) {
    p.territoryAllowed == [] && Unbounded(req.territory)
  }

  /** The use is narrowed onto a maximum that is itself prohibited. */
  predicate ProhibitedMaximum(o: Orders, p: Ceiling, req: Scope) {
    UseMoves(o, p, req) && p.maxUseType in p.prohibitedUseTypes
  }

  lemma OrWorldwideIsUnbounded(t: seq<string>)
    ensures WORLDWIDE in OrWorldwide(t) <==> Unbounded(t)
  {
  }

  lemma ClampedTerritoryMembers(p: Ceiling, req: Scope)
    ensures !TerritoryMoves(p, req) ==> ClampedTerritory(p, req) == OrWorldwide(req.territory)
    ensures TerritoryMoves(p, req) && !Unbounded(req.territory) ==>
      forall t :: t in ClampedTerritory(p, req) <==> t in req.territory && t in p.territoryAllowed
    ensures TerritoryMoves(p, req) && Unbounded(req.territory) ==> ClampedTerritory(p, req) == p.territoryAllowed
  {
    OrWorldwideIsUnbounded(req.territory);
  }

  lemma NotMovedMeansInside(p: Ceiling, req: Scope)
    requires !TerritoryMoves(p, req) && WORLDWIDE !in p.territoryAllowed
    ensures !Unbounded(req.territory) && forall t :: t in req.territory ==> t in p.territoryAllowed
  {
    OrWorldwideIsUnbounded(req.territory);
    forall t | t in req.territory ensures t in p.territoryAllowed {
      assert t in SetOf(OrWorldwide(req.territory));
      assert t in Shared(p, req);
    }
  }

  lemma SharedNonempty(p: Ceiling, req: Scope)
    requires !NoSharedTerritory(p, req) && TerritoryMoves(p, req) && !Unbounded(req.territory)
    ensures !Unbounded(ClampedTerritory(p, req))
  {
    OrWorldwideIsUnbounded(req.territory);
    var t :| t in Shared(p, req);
    assert t in ClampedTerritory(p, req);
    assert WORLDWIDE !in Shared(p, req);
  }

  lemma ClampedTerritoryWithin(p: Ceiling, req: Scope)
    requires !NoSharedTerritory(p, req)
    ensures var t := ClampedTerritory(p, req);
      WORLDWIDE in p.territoryAllowed || (!Unbounded(t) && forall x :: x in t ==> x in p.territoryAllowed) <==>
        !EmptyListTrap(p, req)
  {
    OrWorldwideIsUnbounded(req.territory);
    ClampedTerritoryMembers(p, req);
    if WORLDWIDE !in p.territoryAllowed {
      if !TerritoryMoves(p, req) {
        NotMovedMeansInside(p, req);
      } else if !Unbounded(req.territory) {
        SharedNonempty(p, req);
      }
    }
  }

  /**
   * An offer lies under the ceiling except for the empty list, and is not of a prohibited use except through a
   * prohibited maximum.
   */
  lemma OfferWithinPolicyIff(o: Orders, p: Ceiling, req: Scope)
    requires ValidOrders(o) && ValidScope(o, req) && KnownPolicy(o, p) && Offers(Clamp(o, p, req))
    ensures WithinPolicy(o, p, Clamp(o, p, req).offer) <==> !EmptyListTrap(p, req)
    ensures Clamp(o, p, req).offer.useType !in p.prohibitedUseTypes <==> !ProhibitedMaximum(o, p, req)
    ensures p.attributionAlwaysRequired || req.attributionRequired <==> Clamp(o, p, req).offer.attributionRequired
  {
    ClampedTerritoryWithin(p, req);
    hide ClampedTerritory, Unbounded, TerritoryMoves, NoSharedTerritory;
  }

  // ------------------------------------------------------------------
  // Greatest lower bound
  // ------------------------------------------------------------------

  /** The policy's model class is one the request already covers. */
  predicate ModelFits(o: Orders, p: Ceiling, req: Scope) {
    p.allowedModelClass == ALL_MODELS || Contains(o.model, req.modelClass, p.allowedModelClass)
  }

  lemma ClampedTerritoryFitsRequest(p: Ceiling, req: Scope)
    ensures !NoSharedTerritory(p, req) ==> TerritoryFits(ClampedTerritory(p, req), req.territory)
  {
    OrWorldwideIsUnbounded(req.territory);
    ClampedTerritoryMembers(p, req);
    if TerritoryMoves(p, req) && !Unbounded(req.territory) && !NoSharedTerritory(p, req) {
      SharedNonempty(p, req);
    }
  }

  /** The offer asks for nothing the request did not, exactly when the request's model class covers the policy's. */
  lemma OfferInsideRequestIff(o: Orders, p: Ceiling, req: Scope)
    requires ValidOrders(o) && ValidScope(o, req) && KnownPolicy(o, p) && Offers(Clamp(o, p, req))
    ensures Inside(o, Clamp(o, p, req).offer, req) <==> ModelFits(o, p, req)
  {
    ClampedTerritoryFitsRequest(p, req);
    InsideIffEveryDimension(o, Clamp(o, p, req).offer, req);
    hide ClampedTerritory, TerritoryFits, Inside, NoSharedTerritory, TerritoryMoves, PartialOrder;
    OrderReflexive(o, req, p);
  }

  lemma OrderReflexive(o: Orders, req: Scope, p: Ceiling)
    requires ValidOrders(o) && ValidScope(o, req) && KnownPolicy(o, p)
    ensures Contains(o.use, req.useType, req.useType) && Contains(o.model, req.modelClass, req.modelClass)
    ensures Contains(o.use, p.maxUseType, p.maxUseType) && Contains(o.model, p.allowedModelClass, p.allowedModelClass)
  {
  }

  lemma ClampedTerritoryIsGreatest(p: Ceiling, req: Scope, t: seq<string>)
    requires TerritoryFits(t, req.territory)
    requires WORLDWIDE in p.territoryAllowed || (!Unbounded(t) && forall x :: x in t ==> x in p.territoryAllowed)
    ensures TerritoryFits(t, ClampedTerritory(p, req)) && !NoSharedTerritory(p, req)
  {
    OrWorldwideIsUnbounded(req.territory);
    ClampedTerritoryMembers(p, req);
    if WORLDWIDE !in p.territoryAllowed && !Unbounded(req.territory) {
      assert t[0] in Shared(p, req);
    }
  }

  /** Whatever lies inside the request and under the ceiling lies inside the offer. */
  lemma OfferIsGreatest(o: Orders, p: Ceiling, req: Scope, s: Scope)
    requires ValidOrders(o) && ValidScope(o, req) && KnownPolicy(o, p) && Offers(Clamp(o, p, req))
    requires ValidScope(o, s) && s.validFrom == req.validFrom && Inside(o, s, req) && WithinPolicy(o, p, s)
    ensures Inside(o, s, Clamp(o, p, req).offer)
  {
    InsideIffEveryDimension(o, s, req);
    InsideIffEveryDimension(o, s, Clamp(o, p, req).offer);
    ClampedTerritoryIsGreatest(p, req, s.territory);
  }

  /** A scope that could have been offered. */
  ghost predicate Acceptable(o: Orders, p: Ceiling, req: Scope, s: Scope) {
    ValidScope(o, s) && s.validFrom == req.validFrom && Inside(o, s, req) && WithinPolicy(o, p, s)
  }

  /**
   * Greatest lower bound: when the model classes compare, the offer is acceptable and every acceptable scope lies
   * inside it.
   */
  lemma OfferIsGreatestLowerBound(o: Orders, p: Ceiling, req: Scope)
    requires ValidOrders(o) && ValidScope(o, req) && KnownPolicy(o, p) && Offers(Clamp(o, p, req))
    ensures Acceptable(o, p, req, Clamp(o, p, req).offer) <==> ModelFits(o, p, req) && !EmptyListTrap(p, req)
    ensures forall s :: Acceptable(o, p, req, s) ==> Inside(o, s, Clamp(o, p, req).offer)
  {
    OfferWithinPolicyIff(o, p, req);
    OfferInsideRequestIff(o, p, req);
    OfferIsValid(o, p, req);
    hide Inside, WithinPolicy, Clamp, ModelFits, EmptyListTrap;
    forall s | Acceptable(o, p, req, s) ensures Inside(o, s, Clamp(o, p, req).offer) {
      OfferIsGreatest(o, p, req, s);
    }
  }

  lemma OfferIsValid(o: Orders, p: Ceiling, req: Scope)
    requires ValidScope(o, req) && KnownPolicy(o, p) && Offers(Clamp(o, p, req))
    ensures ValidScope(o, Clamp(o, p, req).offer) && Clamp(o, p, req).offer.validFrom == req.validFrom
  {
  }

  // ------------------------------------------------------------------
  // When a rejection is final
  // ------------------------------------------------------------------

  /** Two uses have a common part. */
  ghost predicate Overlap(o: Orders, a: string, b: string) {
    exists u :: Contains(o.use, a, u) && Contains(o.use, b, u)
  }

  /** Some use outside `banned` lies below both the request and the maximum. */
  ghost predicate UseRemains(o: Orders, p: Ceiling, req: Scope, banned: seq<string>) {
    exists u :: Contains(o.use, req.useType, u) && Contains(o.use, p.maxUseType, u) && u !in banned
  }

  predicate AllowsModel(o: Orders, p: Ceiling, m: string) {
    p.allowedModelClass == ALL_MODELS || Contains(o.model, p.allowedModelClass, m)
  }

  /** Some model class lies below both the request and the policy. */
  ghost predicate ModelsMeet(o: Orders, p: Ceiling, req: Scope) {
    exists m :: Contains(o.model, req.modelClass, m) && AllowsModel(o, p, m)
  }

  /** Territories and the day count leave room for some scope. */
  predicate TermsMeet(p: Ceiling, req: Scope) {
    !NoSharedTerritory(p, req) && !EmptyListTrap(p, req) && (p.maxDurationDays.Some? ==> 0 <= p.maxDurationDays.value)
  }

  /** Some scope for an unbanned use lies inside the request and under the ceiling. */
  ghost predicate SomethingFits(o: Orders, p: Ceiling, req: Scope, banned: seq<string>) {
    exists s :: Acceptable(o, p, req, s) && s.useType !in banned
  }

  /** Swapping in a use and a model class both sides allow makes the clamped scope acceptable. */
  lemma NarrowerFits(o: Orders, p: Ceiling, req: Scope, use: string, model: string)
    requires ValidOrders(o) && ValidScope(o, req) && TermsMeet(p, req)
    requires Contains(o.use, req.useType, use) && Contains(o.use, p.maxUseType, use)
    requires Contains(o.model, req.modelClass, model) && AllowsModel(o, p, model)
    ensures Acceptable(o, p, req, ClampedScope(o, p, req).(useType := use, modelClass := model))
  {
    var s := ClampedScope(o, p, req).(useType := use, modelClass := model);
    ClampedTerritoryWithin(p, req);
    ClampedTerritoryFitsRequest(p, req);
    hide ClampedTerritory, TerritoryFits, NoSharedTerritory, TerritoryMoves, Unbounded;
    InsideIffEveryDimension(o, s, req);
  }

  lemma FittingNeeds(o: Orders, p: Ceiling, req: Scope, s: Scope)
    requires ValidOrders(o) && ValidScope(o, req) && Acceptable(o, p, req, s)
    ensures Contains(o.use, req.useType, s.useType) && Contains(o.use, p.maxUseType, s.useType)
    ensures Contains(o.model, req.modelClass, s.modelClass) && AllowsModel(o, p, s.modelClass) && TermsMeet(p, req)
  {
    InsideIffEveryDimension(o, s, req);
    hide Inside, PartialOrder;
    ClampedTerritoryIsGreatest(p, req, s.territory);
    hide NoSharedTerritory, TerritoryFits;
    assert s.territory != [] ==> s.territory[0] in s.territory;
  }

  /** Something fits exactly when a use, a model class, a territory and a window are left on both sides. */
  lemma SomethingFitsIff(o: Orders, p: Ceiling, req: Scope, banned: seq<string>)
    requires ValidOrders(o) && ValidScope(o, req)
    ensures SomethingFits(o, p, req, banned) <==>
      UseRemains(o, p, req, banned) && ModelsMeet(o, p, req) && TermsMeet(p, req)
  {
    hide Acceptable, Contains, AllowsModel, TermsMeet, ValidOrders, ValidScope, ClampedScope;
    if SomethingFits(o, p, req, banned) {
      var s :| Acceptable(o, p, req, s) && s.useType !in banned;
      FittingNeeds(o, p, req, s);
    }
    if UseRemains(o, p, req, banned) && ModelsMeet(o, p, req) && TermsMeet(p, req) {
      var u :| Contains(o.use, req.useType, u) && Contains(o.use, p.maxUseType, u) && u !in banned;
      var m :| Contains(o.model, req.modelClass, m) && AllowsModel(o, p, m);
      NarrowerFits(o, p, req, u, m);
    }
  }

  /**
   * A rejection for territory is final. One as incomparable passes a scope over exactly when the two uses share a part
   * and the other dimensions meet; one as prohibited does exactly when a use that is not prohibited is left below both
   * the request and the maximum and the other dimensions meet.
   */
  lemma RejectionIsFinalIff(o: Orders, p: Ceiling, req: Scope)
    requires ValidOrders(o) && ValidScope(o, req)
    ensures Clamp(o, p, req) == Rejected(NoTerritory) ==> !SomethingFits(o, p, req, [])
    ensures Clamp(o, p, req) == Rejected(Incomparable) ==>
      (SomethingFits(o, p, req, []) <==>
       Overlap(o, req.useType, p.maxUseType) && ModelsMeet(o, p, req) && TermsMeet(p, req))
    ensures Clamp(o, p, req) == Rejected(Prohibited) ==>
      (SomethingFits(o, p, req, p.prohibitedUseTypes) <==>
       UseRemains(o, p, req, p.prohibitedUseTypes) && ModelsMeet(o, p, req) && TermsMeet(p, req))
  {
    SomethingFitsIff(o, p, req, []);
    SomethingFitsIff(o, p, req, p.prohibitedUseTypes);
    hide SomethingFits, ModelsMeet, PartialOrder, ClampedScope, Moved, WellFormed;
    assert UseRemains(o, p, req, []) <==> Overlap(o, req.useType, p.maxUseType);
  }

  // ------------------------------------------------------------------
  // Fixed point, agreement, malformed windows
  // ------------------------------------------------------------------

  lemma TerritoryAgain(p: Ceiling, req: Scope, offer: Scope)
    requires !NoSharedTerritory(p, req) && offer.territory == ClampedTerritory(p, req)
    ensures !EmptyListTrap(p, req) ==>
      !TerritoryMoves(p, offer) && !NoSharedTerritory(p, offer) && ClampedTerritory(p, offer) == offer.territory
    ensures EmptyListTrap(p, req) ==> TerritoryMoves(p, offer)
  {
    OrWorldwideIsUnbounded(req.territory);
    OrWorldwideIsUnbounded(offer.territory);
    ClampedTerritoryMembers(p, req);
    if WORLDWIDE !in p.territoryAllowed && !EmptyListTrap(p, req) {
      ClampedTerritoryWithin(p, req);
      assert OrWorldwide(offer.territory) == offer.territory;
      assert Shared(p, offer) == SetOf(offer.territory) by {
        assert forall t :: t in SetOf(offer.territory) ==> t in SetOf(p.territoryAllowed);
      }
      assert offer.territory[0] in SetOf(offer.territory);
    }
  }

  /** Proposing the offer back yields the identical scope, agreed, unless one of the two traps was sprung. */
  lemma OfferIsAFixedPointIff(o: Orders, p: Ceiling, req: Scope)
    requires ValidOrders(o) && ValidScope(o, req) && KnownPolicy(o, p) && Offers(Clamp(o, p, req))
    ensures var offer := Clamp(o, p, req).offer;
      Clamp(o, p, offer) == Agreed(offer) <==> !EmptyListTrap(p, req) && !ProhibitedMaximum(o, p, req)
  {
    var offer := Clamp(o, p, req).offer;
    TerritoryAgain(p, req, offer);
    OrderReflexive(o, req, p);
    hide ClampedTerritory, TerritoryMoves, NoSharedTerritory, EmptyListTrap, PartialOrder;
    assert !UseMoves(o, p, offer) && !ModelMoves(p, offer) && !DurationMoves(p, offer);
  }

  lemma UnmovedTerritory(p: Ceiling, req: Scope)
    ensures TerritoryMoves(p, req) <==> ClampedTerritory(p, req) != OrWorldwide(req.territory) || EmptyListTrap(p, req)
  {
    OrWorldwideIsUnbounded(req.territory);
    ClampedTerritoryMembers(p, req);
    if TerritoryMoves(p, req) && !Unbounded(req.territory) {
      assert Shared(p, req) <= SetOf(req.territory);
      var t :| t in SetOf(req.territory) && t !in Shared(p, req);
    }
  }

  /**
   * AGREED means the offer is the request, with an empty territory list written as WW; any other offer is a
   * counteroffer.
   */
  lemma AgreedIffNothingMoved(o: Orders, p: Ceiling, req: Scope)
    requires ValidOrders(o) && ValidScope(o, req) && KnownPolicy(o, p) && Offers(Clamp(o, p, req))
    ensures Clamp(o, p, req).Agreed? <==> Clamp(o, p, req).offer == req.(territory := OrWorldwide(req.territory))
  {
    UnmovedTerritory(p, req);
    OrderReflexive(o, req, p);
    hide ClampedTerritory, TerritoryMoves, NoSharedTerritory, PartialOrder;
  }

  /** A proposal the policy does not reject fails validation exactly when the policy's day count is negative. */
  lemma MalformedIff(o: Orders, p: Ceiling, req: Scope)
    requires WellFormed(req)
    ensures Clamp(o, p, req) == Malformed <==>
      !Clamp(o, p, req).Rejected? && p.maxDurationDays.Some? && p.maxDurationDays.value < 0
  {
    hide ClampedTerritory, TerritoryMoves, NoSharedTerritory, Contains;
  }

  // ------------------------------------------------------------------
  // Clamp, then decide
  // ------------------------------------------------------------------

  lemma WithinPolicyIsDownward(o: Orders, p: Ceiling, offer: Scope, asked: Scope)
    requires ValidOrders(o) && ValidScope(o, asked) && WithinPolicy(o, p, offer) && Inside(o, asked, offer)
    ensures WithinPolicy(o, p, asked)
  {
    InsideIffEveryDimension(o, asked, offer);
    hide Inside;
    if WORLDWIDE !in p.territoryAllowed {
      assert !Unbounded(asked.territory);
    }
  }

  /** Every grant carries a scope some clamp against this policy offered, outside the empty-list trap. */
  ghost predicate ClampedGrants(o: Orders, p: Ceiling, grants: seq<GrantEvent>) {
    forall g :: g in grants ==> exists req :: OfferedFor(o, p, req, g.scope)
  }

  ghost predicate OfferedFor(o: Orders, p: Ceiling, req: Scope, offer: Scope) {
    ValidScope(o, req) && Offers(Clamp(o, p, req)) && offer == Clamp(o, p, req).offer && !EmptyListTrap(p, req)
  }

  /**
   * Whatever permits() later allows under clamped grants is inside the artist's ceiling, and carries the attribution
   * obligation.
   */
  lemma ClampThenDecide(o: Orders, p: Ceiling, grants: seq<GrantEvent>, asked: Scope, at: Instant, answer: Answer)
    requires ValidOrders(o) && KnownPolicy(o, p) && ValidScope(o, asked) && ClampedGrants(o, p, grants)
    requires AnswersFor(o, grants, asked, at, answer) && answer.Evaluated? && answer.result.permitted
    ensures WithinPolicy(o, p, asked)
    ensures p.attributionAlwaysRequired ==> answer.result.attributionRequired
  {
    hide Inside, Clamp, WithinPolicy, EmptyListTrap, PartialOrder;
    var i :| 0 <= i < |grants| && FirstMatch(o, grants, asked, at, i) && answer.result == Matched(grants[i]);
    var g := grants[i];
    assert g in grants;
    var req :| OfferedFor(o, p, req, g.scope);
    OfferWithinPolicyIff(o, p, req);
    WithinPolicyIsDownward(o, p, g.scope, asked);
  }

  /** No request for a prohibited use is permitted at `at`. */
  ghost predicate NeverPermitsProhibited(o: Orders, grants: seq<GrantEvent>, prohibited: seq<string>, at: Instant) {
    forall asked :: ValidScope(o, asked) && Permitted(o, grants, asked, at) ==> asked.useType !in prohibited
  }

  /** A prohibited use lies at or below the use the scope names. */
  ghost predicate ReachesProhibited(o: Orders, s: Scope, prohibited: seq<string>) {
    exists u :: u in prohibited && Contains(o.use, s.useType, u)
  }

  /**
   * The clamp looks at the requested use alone, so whether a prohibited use is later permitted depends on what lies
   * below the offers.
   */
  lemma NeverPermitsProhibitedIff(o: Orders, grants: seq<GrantEvent>, prohibited: seq<string>, at: Instant)
    requires ValidOrders(o) && forall g :: g in grants ==> ValidScope(o, g.scope)
    ensures NeverPermitsProhibited(o, grants, prohibited, at) <==>
      forall g :: g in grants && IsScopeCurrent(g.scope, at) ==> !ReachesProhibited(o, g.scope, prohibited)
  {
    hide Inside, IsScopeCurrent, WellFormed;
    forall g, u | g in grants && IsScopeCurrent(g.scope, at) && u in prohibited && Contains(o.use, g.scope.useType, u)
      ensures !NeverPermitsProhibited(o, grants, prohibited, at)
    {
      BelowIsPermitted(o, grants, g, u, at);
    }
    forall asked | ValidScope(o, asked) && asked.useType in prohibited && Permitted(o, grants, asked, at)
      ensures exists g :: g in grants && IsScopeCurrent(g.scope, at) && ReachesProhibited(o, g.scope, prohibited)
    {
      var g :| g in grants && Admits(o, g.scope, asked, at);
      InsideIffEveryDimension(o, asked, g.scope);
    }
  }

  /** A current grant permits its own terms for every use at or below its own. */
  lemma BelowIsPermitted(o: Orders, grants: seq<GrantEvent>, g: GrantEvent, u: string, at: Instant)
    requires ValidOrders(o) && ValidScope(o, g.scope) && g in grants && IsScopeCurrent(g.scope, at)
    requires Contains(o.use, g.scope.useType, u)
    ensures var asked := g.scope.(useType := u);
      ValidScope(o, asked) && Permitted(o, grants, asked, at)
  {
    var asked := g.scope.(useType := u);
    InsideIffEveryDimension(o, asked, g.scope);
    assert Admits(o, g.scope, asked, at) by {
      hide IsScopeCurrent, Inside;
    }
  }
}
