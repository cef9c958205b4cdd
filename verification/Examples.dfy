/** The shipped tables, and concrete inputs on which a promise of the code fails. */
module Examples {
  import opened Scopes
  import opened Lattice
  import opened Resolver
  import opened Evaluator
  import opened Effects
  import opened Gateway
  import opened Cascade
  import opened CascadeTheorems
  import Adjudication
  import N = Negotiation
  import Text

  const USES: Order := map[
    "training" := {"training", "fine_tuning", "rag_retrieval", "human_reference"},
    "fine_tuning" := {"fine_tuning", "rag_retrieval", "human_reference"},
    "rag_retrieval" := {"rag_retrieval", "human_reference"},
    "human_reference" := {"human_reference"},
    "synthesis" := {"synthesis"}]

  const MODELS: Order := map[
    "all_models" := {"all_models", "open_weights", "proprietary_frontier"},
    "open_weights" := {"open_weights"},
    "proprietary_frontier" := {"proprietary_frontier"}]

  const SHIPPED: Orders := Orders(USES, MODELS)

  lemma NamesDiffer()
    ensures |"training"| == 8 && |"fine_tuning"| == 11 && |"rag_retrieval"| == 13 && |"human_reference"| == 15
    ensures |"synthesis"| == 9
    ensures |"all_models"| == 10 && |"open_weights"| == 12 && |"proprietary_frontier"| == 20
  {
  }

  lemma UsesAreAnOrder()
    ensures PartialOrder(USES)
  {
    NamesDiffer();
    forall x, y | Contains(USES, x, y) ensures y in USES && USES[y] <= USES[x] && (x != y ==> |USES[y]| < |USES[x]|) {
      if x == "training" {
        assert y in {"training", "fine_tuning", "rag_retrieval", "human_reference"};
      } else if x == "fine_tuning" {
        assert y in {"fine_tuning", "rag_retrieval", "human_reference"};
      } else if x == "rag_retrieval" {
        assert y in {"rag_retrieval", "human_reference"};
      } else {
        assert x == y;
      }
    }
  }

  lemma ModelsAreAnOrder()
    ensures PartialOrder(MODELS)
  {
    NamesDiffer();
    forall x, y | Contains(MODELS, x, y)
      ensures y in MODELS && MODELS[y] <= MODELS[x] && (x != y ==> x == "all_models")
    {
      if x == "all_models" {
        assert y in {"all_models", "open_weights", "proprietary_frontier"};
      } else {
        assert x == y;
      }
    }
  }

  /** The tables the program ships are orders, so every theorem about orders is about them. */
  lemma ShippedTablesAreOrders()
    ensures ValidOrders(SHIPPED)
  {
    UsesAreAnOrder();
    ModelsAreAnOrder();
  }

  function Asked(use: string, model: string, territory: seq<string>): Scope {
    Scope(use, model, false, false, territory, 0, None)
  }

  /** A policy that names no territory, asked for the world: the counteroffer's empty list means everywhere. */
  lemma EmptyTerritoryOffersTheWorld()
    ensures var p := N.Ceiling("training", "all_models", true, [], None, false, []);
      var out := N.Clamp(SHIPPED, p, Asked("training", "all_models", ["WW"]));
      out.Counter? && Unbounded(out.offer.territory) && !N.WithinPolicy(SHIPPED, p, out.offer)
  {
    assert N.OrWorldwide(["WW"]) == ["WW"] && "WW" in ["WW"];
  }

  /** A maximum that is itself prohibited: a request above it is offered the prohibited use. */
  lemma ProhibitedMaximumIsOffered()
    ensures var p := N.Ceiling("fine_tuning", "all_models", true, ["WW"], None, false, ["fine_tuning"]);
      var out := N.Clamp(SHIPPED, p, Asked("training", "all_models", ["WW"]));
      out.Counter? && out.offer.useType in p.prohibitedUseTypes
        && N.Clamp(SHIPPED, p, out.offer) == N.Rejected(N.Prohibited)
  {
    assert Contains(USES, "training", "fine_tuning") && !Contains(USES, "fine_tuning", "training");
    assert "WW" in ["WW"];
  }

  /** Incomparable model classes: the counteroffer is for a class the buyer never asked for. */
  lemma CounterofferOutsideTheRequest()
    ensures var p := N.Ceiling("training", "open_weights", true, ["WW"], None, false, []);
      var req := Asked("training", "proprietary_frontier", ["WW"]);
      var out := N.Clamp(SHIPPED, p, req);
      out.Counter? && !Inside(SHIPPED, out.offer, req)
  {
    var p := N.Ceiling("training", "open_weights", true, ["WW"], None, false, []);
    var req := Asked("training", "proprietary_frontier", ["WW"]);
    assert "WW" in ["WW"] && N.ModelMoves(p, req);
    ShippedTablesAreOrders();
    N.OfferInsideRequestIff(SHIPPED, p, req);
    assert !Contains(MODELS, "proprietary_frontier", "open_weights");
  }

  /** Two uses that share a third, as an order may declare them. */
  const CROSSING: Order := map["left" := {"left", "both"}, "right" := {"right", "both"}, "both" := {"both"}]

  lemma CrossingIsAnOrder()
    ensures ValidOrders(Orders(CROSSING, MODELS))
  {
    ModelsAreAnOrder();
    assert |"left"| == 4 && |"right"| == 5 && "both"[0] == 'b' && "left"[0] == 'l';
    forall x, y | Contains(CROSSING, x, y)
      ensures y in CROSSING && CROSSING[y] <= CROSSING[x] && (x != y ==> y == "both" && x != "both")
    {
      if x == "left" {
        assert y in {"left", "both"};
      } else if x == "right" {
        assert y in {"right", "both"};
      } else {
        assert x == y;
      }
    }
  }

  /** Rejected as incomparable, "no narrower scope satisfies both", while one does. */
  lemma IncomparableRejectionPassesAScopeOver()
    ensures var o := Orders(CROSSING, MODELS);
      var p := N.Ceiling("right", "all_models", true, ["WW"], None, false, []);
      var req := Asked("left", "all_models", ["WW"]);
      N.Clamp(o, p, req) == N.Rejected(N.Incomparable) && N.SomethingFits(o, p, req, [])
  {
    var o := Orders(CROSSING, MODELS);
    var p := N.Ceiling("right", "all_models", true, ["WW"], None, false, []);
    var req := Asked("left", "all_models", ["WW"]);
    CrossingIsAnOrder();
    assert "WW" in ["WW"] && |"left"| == 4 && |"right"| == 5;
    assert "left"[0] == 'l' && "right"[0] == 'r' && "both"[0] == 'b';
    N.RejectionIsFinalIff(o, p, req);
    assert Contains(CROSSING, "left", "both") && Contains(CROSSING, "right", "both");
    assert N.Overlap(o, "left", "right");
    assert Contains(MODELS, "all_models", "all_models") && N.AllowsModel(o, p, "all_models");
    assert N.ModelsMeet(o, p, req) && N.TermsMeet(p, req);
  }

  /** In the shipped table incomparable uses share nothing. */
  lemma ShippedUsesOverlapOnlyWhenComparable(a: string, b: string)
    requires N.Overlap(SHIPPED, a, b)
    ensures Contains(USES, a, b) || Contains(USES, b, a)
  {
    NamesDiffer();
    var u :| Contains(USES, a, u) && Contains(USES, b, u);
    if a == "synthesis" || b == "synthesis" {
      assert u == "synthesis" && a == b;
    }
  }

  /** So under the shipped tables a rejection as incomparable is final, whatever the policy and the request. */
  lemma ShippedIncomparableRejectionIsFinal(p: N.Ceiling, req: Scope)
    requires ValidScope(SHIPPED, req) && N.Clamp(SHIPPED, p, req) == N.Rejected(N.Incomparable)
    ensures !N.SomethingFits(SHIPPED, p, req, [])
  {
    hide USES, MODELS, N.SomethingFits, N.ModelsMeet, N.TermsMeet, N.NoSharedTerritory, N.ClampedScope, N.Overlap,
         PartialOrder;
    ShippedTablesAreOrders();
    N.RejectionIsFinalIff(SHIPPED, p, req);
    if N.Overlap(SHIPPED, req.useType, p.maxUseType) {
      ShippedUsesOverlapOnlyWhenComparable(req.useType, p.maxUseType);
    }
  }

  /**
   * Rejected as prohibited, "no narrowing can rescue it", while the policy's own maximum lies inside the request and is
   * not prohibited.
   */
  lemma ProhibitedRejectionPassesAScopeOver()
    ensures var p := N.Ceiling("fine_tuning", "all_models", true, ["WW"], None, false, ["training"]);
      var req := Asked("training", "all_models", ["WW"]);
      N.Clamp(SHIPPED, p, req) == N.Rejected(N.Prohibited) && N.SomethingFits(SHIPPED, p, req, p.prohibitedUseTypes)
  {
    var p := N.Ceiling("fine_tuning", "all_models", true, ["WW"], None, false, ["training"]);
    var req := Asked("training", "all_models", ["WW"]);
    ShippedTablesAreOrders();
    NamesDiffer();
    assert "WW" in ["WW"];
    N.RejectionIsFinalIff(SHIPPED, p, req);
    assert Contains(USES, "training", "fine_tuning") && Contains(USES, "fine_tuning", "fine_tuning");
    assert N.UseRemains(SHIPPED, p, req, p.prohibitedUseTypes);
    assert Contains(MODELS, "all_models", "all_models") && N.AllowsModel(SHIPPED, p, "all_models");
    assert N.ModelsMeet(SHIPPED, p, req) && N.TermsMeet(p, req);
  }

  /** Agreed outright, and yet a use the artist prohibited lies below the use agreed on. */
  lemma AgreedReachesProhibited()
    ensures var p := N.Ceiling("training", "all_models", true, ["WW"], None, false, ["rag_retrieval"]);
      var req := Asked("training", "all_models", ["WW"]);
      N.Clamp(SHIPPED, p, req) == N.Agreed(req) && N.ReachesProhibited(SHIPPED, req, p.prohibitedUseTypes)
  {
    var req := Asked("training", "all_models", ["WW"]);
    NamesDiffer();
    assert "WW" in ["WW"] && N.OrWorldwide(["WW"]) == ["WW"];
    assert Contains(USES, "training", "training") && Contains(USES, "training", "rag_retrieval");
    assert "rag_retrieval" in ["rag_retrieval"];
  }

  /** An access observed, granted, and inconsistent with the scope: outside in code, not outside as documented. */
  lemma GrantDoesNotPreventOutside()
    ensures var classes :=
      {Adjudication.ObservedHttpAccess, Adjudication.GrantExisted, Adjudication.AccessInconsistentWithScope};
      Adjudication.Outside(classes) && !Adjudication.OutsideAsDocumented(classes)
  {
  }

  function Event(h: Hash, step: nat, kind: Kind, at: Instant): GrantEvent {
    GrantEvent(DeterministicEventId(h, "g", step, 1), "g", "w", "acme", Asked("training", "all_models", ["WW"]), kind,
               None, at)
  }

  /** Granted, terminated by operation "op-00001", granted again. */
  function Regranted(h: Hash): Store {
    var ended := Event(h, 1, Revoked, 2).(eventId := EffectId(h, "op-00001", "g", REVOKED_EVENT));
    Store(map[], map["grants" := [Entry(Event(h, 1, Granted, 1).eventId, GrantDoc(Event(h, 1, Granted, 1))),
                                  Entry(ended.eventId, GrantDoc(ended)),
                                  Entry(Event(h, 2, Granted, 3).eventId, GrantDoc(Event(h, 2, Granted, 3)))]])
  }

  /**
   * Retrying the old operation after the re-grant selects the grant and finds its id taken: the call cannot be final.
   */
  lemma RetryAfterRegrantIsNotClear(h: Hash)
    requires Injective(h)
    ensures var c :=
      Config(h, Names("grants", "revocation_outbox", "revocation_notices"), USES, "op-00001", "w", "fine_tuning");
      Typed(Regranted(h), c.names) && !AllClear(c, Regranted(h), 4)
  {
    var c := Config(h, Names("grants", "revocation_outbox", "revocation_notices"), USES, "op-00001", "w",
                    "fine_tuning");
    RegrantedTyped(h, c);
    RegrantedTaken(h, c);
    RegrantedLog(h, c);
    var last := Event(h, 2, Granted, 3);
    IdsApart(h);
    hide Snapshot, Typed, Regranted, EffectId, DeterministicEventId, Clear, USES;
    LastEventWins("g", None, Snapshot(c, Regranted(h)), last);
    TrainingCoversFineTuning();
    assert Selected(c, Resolved("g", None, Snapshot(c, Regranted(h))), 4);
  }

  lemma TrainingCoversFineTuning()
    ensures Contains(USES, "training", "fine_tuning")
  {
  }

  lemma RegrantedTyped(h: Hash, c: Config)
    requires c.names == Names("grants", "revocation_outbox", "revocation_notices")
    ensures Typed(Regranted(h), c.names)
  {
    assert |"grants"| == 6 && |"revocation_outbox"| == 17;
    assert Written(Regranted(h), c.names.outbox) == [];
  }

  lemma RegrantedTaken(h: Hash, c: Config)
    requires c.names == Names("grants", "revocation_outbox", "revocation_notices") && c.h == h
    requires c.operationId == "op-00001"
    ensures !Clear(c, Regranted(h), "g")
  {
    hide EffectId;
    assert Written(Regranted(h), "grants")[1].id == EffectId(h, "op-00001", "g", REVOKED_EVENT);
  }

  lemma RegrantedLog(h: Hash, c: Config)
    requires Injective(h) && c.names == Names("grants", "revocation_outbox", "revocation_notices") && c.workId == "w"
    requires c.h == h
    ensures Typed(Regranted(h), c.names) && UniqueIds(Snapshot(c, Regranted(h)))
    ensures IsLast(Snapshot(c, Regranted(h)), "g", None, Event(h, 2, Granted, 3))
  {
    RegrantedTyped(h, c);
    IdsApart(h);
    var s := Regranted(h);
    var b := Written(s, "grants");
    var first, last := Event(h, 1, Granted, 1), Event(h, 2, Granted, 3);
    var ended := Event(h, 1, Revoked, 2).(eventId := EffectId(h, "op-00001", "g", REVOKED_EVENT));
    assert DocsOf(b) == [GrantDoc(first), GrantDoc(ended), GrantDoc(last)];
    hide EffectId, DeterministicEventId, Typed, Snapshot;
    forall e ensures e in Snapshot(c, s) <==> e == first || e == ended || e == last {
      SnapshotMembers(c, s, e);
      assert Logged(c.names, s, e) <==> GrantDoc(e) in DocsOf(b);
    }
    hide Regranted, Logged;
    Text.LeqTotal(last.eventId, last.eventId);
  }

  lemma IdsApart(h: Hash)
    requires Injective(h)
    ensures DeterministicEventId(h, "g", 1, 1) != DeterministicEventId(h, "g", 2, 1)
    ensures forall step: nat :: DeterministicEventId(h, "g", step, 1) != EffectId(h, "op-00001", "g", REVOKED_EVENT)
  {
    assert Decimal(1) == "1" && Decimal(2) == "2";
    assert ("g" + ":" + "1" + ":" + "1")[2] == '1' && ("g" + ":" + "2" + ":" + "1")[2] == '2';
    forall step: nat ensures DeterministicEventId(h, "g", step, 1) != EffectId(h, "op-00001", "g", REVOKED_EVENT) {
      OrdinaryIdsAreNotEffects(h, "g", step, 1, "op-00001", "g", REVOKED_EVENT);
    }
  }
}
