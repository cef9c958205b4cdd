/**
 * Two active grants of one counterparty on one work: containment revokes the use of the first, and the narrower second
 * survives.
 */
module Survivor {
  import opened Scopes
  import opened Lattice
  import opened Resolver
  import opened Evaluator
  import opened Effects
  import opened Gateway
  import opened Cascade
  import opened CascadeTheorems
  import opened Examples
  import IncidentEngine
  import Text

  function Held(h: Hash, gid: string, use: string, at: Instant): GrantEvent {
    GrantEvent(DeterministicEventId(h, gid, 1, 1), gid, "w", "acme", Asked(use, "all_models", ["WW"]), Granted, None,
               at)
  }

  function Wide(h: Hash): GrantEvent { Held(h, "a", "fine_tuning", 1) }
  function Narrow(h: Hash): GrantEvent { Held(h, "b", "rag_retrieval", 2) }

  function TwoGrants(h: Hash): Store {
    Store(map[],
          map["grants" := [Entry(Wide(h).eventId, GrantDoc(Wide(h))), Entry(Narrow(h).eventId, GrantDoc(Narrow(h)))]])
  }

  /** What containment of an incident asks the cascade when "a" is the first active grant. */
  function Asks(h: Hash): Config {
    Config(h, Namespaced(""), USES, "incident-i", "w", Wide(h).scope.useType)
  }

  /** Neither granting stands under an id of the incident's operation. */
  ghost predicate NoneOfTheIncident(h: Hash) {
    forall gid ::
      EffectId(h, "incident-i", gid, REVOKED_EVENT) !in [Wide(h).eventId, Narrow(h).eventId]
  }

  lemma IdsDiffer(h: Hash)
    requires Injective(h)
    ensures Wide(h).eventId != Narrow(h).eventId
    ensures NoneOfTheIncident(h)
  {
    assert Decimal(1) == "1";
    assert ("a" + ":" + "1" + ":" + "1")[0] == 'a' && ("b" + ":" + "1" + ":" + "1")[0] == 'b';
    forall gid
      ensures Wide(h).eventId != EffectId(h, "incident-i", gid, REVOKED_EVENT)
      ensures Narrow(h).eventId != EffectId(h, "incident-i", gid, REVOKED_EVENT)
    {
      OrdinaryIdsAreNotEffects(h, "a", 1, 1, "incident-i", gid, REVOKED_EVENT);
      OrdinaryIdsAreNotEffects(h, "b", 1, 1, "incident-i", gid, REVOKED_EVENT);
    }
  }

  lemma StoreParts(h: Hash)
    ensures Typed(TwoGrants(h), Namespaced(""))
    ensures forall e :: Logged(Namespaced(""), TwoGrants(h), e) <==> e == Wide(h) || e == Narrow(h)
  {
    hide DeterministicEventId, Wide, Narrow;
    IncidentEngine.NamesFree();
    assert |"grants"| == 6 && |"revocation_outbox"| == 17;
    assert DocsOf(Written(TwoGrants(h), "grants")) == [GrantDoc(Wide(h)), GrantDoc(Narrow(h))];
    assert Written(TwoGrants(h), "revocation_outbox") == [];
  }

  lemma Leqs()
    ensures Text.Leq("a", "b") && !Text.Leq("b", "a")
  {
  }

  /** A log of two grantings of two grants: both active, in grant id order. */
  lemma BothActive(log: seq<GrantEvent>, a: GrantEvent, b: GrantEvent, at: Option<Instant>)
    requires forall e :: e in log <==> e == a || e == b
    requires a.eventId != b.eventId && a.grantId == "a" && b.grantId == "b" && a.kind == Granted && b.kind == Granted
    requires at.Some? ==> a.issuedAt <= at.value && b.issuedAt <= at.value
    ensures UniqueIds(log) && ActiveGrants(log, at) == [a, b]
  {
    hide ActiveGrants;
    Text.LeqTotal(a.eventId, a.eventId);
    Text.LeqTotal(b.eventId, b.eventId);
    assert IsLast(log, "a", at, a) && IsLast(log, "b", at, b);
    ActiveGrantsProjectTheFold(log, at);
    hide IsLast, UniqueIds;
    Leqs();
    var r := ActiveGrants(log, at);
    assert forall e :: e in r ==> e in [a, b];
    TwoInOrder(r, a, b);
  }

  /** Longer than a list that holds its grants once each: it has another member. */
  lemma Other(r: seq<GrantEvent>, few: seq<GrantEvent>) returns (e: GrantEvent)
    requires ByGrantId(r) && |few| == 2 && |r| > (if few[0] == few[1] then 1 else 2)
    ensures e in r && e !in few
  {
    hide Text.Leq;
    e := r[0];
    if e in few {
      e := r[1];
      if e in few {
        e := r[2];
      }
    }
  }

  lemma TwoInOrder(r: seq<GrantEvent>, a: GrantEvent, b: GrantEvent)
    requires ByGrantId(r) && a in r && b in r && (forall e :: e in r ==> e == a || e == b) && a.grantId == "a"
    requires b.grantId == "b"
    ensures r == [a, b]
  {
    Leqs();
    hide Text.Leq;
    var i :| 0 <= i < |r| && r[i] == a;
    var j :| 0 <= j < |r| && r[j] == b;
    assert i < j;
    if |r| > 2 {
      var e := Other(r, [a, b]);
    }
  }

  lemma JustOne(r: seq<GrantEvent>, b: GrantEvent)
    requires ByGrantId(r) && b in r && forall e :: e in r ==> e == b
    ensures r == [b]
  {
    hide Text.Leq;
    assert forall e :: e in [b, b] ==> e == b;
    if |r| > 1 {
      var e := Other(r, [b, b]);
    }
  }

  lemma NarrowIsNotExposed(h: Hash, at: Instant)
    ensures !Exposed(Asks(h), TwoGrants(h), at, Narrow(h))
  {
    NamesDiffer();
    assert !Contains(USES, "rag_retrieval", "fine_tuning");
    hide Clear, USES;
  }

  lemma WideIsExposed(h: Hash, at: Instant)
    requires Injective(h)
    ensures Exposed(Asks(h), TwoGrants(h), at, Wide(h))
  {
    assert Contains(USES, "fine_tuning", "fine_tuning");
    StartIsClear(h);
    hide Clear, USES;
  }

  lemma StartIsClear(h: Hash)
    requires Injective(h)
    ensures Clear(Asks(h), TwoGrants(h), "a")
  {
    IdsDiffer(h);
    IncidentEngine.NamesFree();
    assert |"grants"| == 6 && |"revocation_outbox"| == 17;
    hide EffectId, Injective, Wide, Narrow;
    assert Written(TwoGrants(h), "revocation_outbox") == [];
  }

  /** Before: both active at any instant asked about, the wider one first, so its use is what containment revokes. */
  lemma BothActiveBefore(h: Hash, at: Option<Instant>)
    requires Injective(h) && (at.Some? ==> 2 <= at.value)
    ensures Typed(TwoGrants(h), Namespaced(""))
    ensures ActiveGrants(View(Namespaced(""), TwoGrants(h), "w", "acme"), at) == [Wide(h), Narrow(h)]
  {
    StoreParts(h);
    IdsDiffer(h);
    var view := View(Namespaced(""), TwoGrants(h), "w", "acme");
    forall e ensures e in view <==> e == Wide(h) || e == Narrow(h) {
      ViewMembers(Namespaced(""), TwoGrants(h), "w", "acme", e);
    }
    hide View, ActiveGrants, DeterministicEventId, Typed;
    BothActive(view, Wide(h), Narrow(h), at);
  }

  lemma AskedParts(h: Hash)
    requires Injective(h)
    ensures var c := Asks(h);
      && Sound(c) && c.names == Namespaced("") && c.h == h && c.workId == "w" && c.operationId == "incident-i"
      && c.useType == "fine_tuning"
      && c == Config(h, Namespaced(""), USES, "incident-i", "w", "fine_tuning")
  {
    UsesAreAnOrder();
    hide PartialOrder, Injective;
  }

  /** The log after the call: the two grantings and revocations under the incident's own ids, one per grant. */
  lemma LogAfter(h: Hash, after: Store, at: Instant, end: Instant, drafts: map<string, Draft>, draft: string -> string,
                 r: CascadeResult)
    requires Injective(h) && Ran(Asks(h), TwoGrants(h), after, at, end, drafts, draft, r)
    ensures Typed(after, Namespaced("")) && Premises(Asks(h), after)
    ensures forall e :: Logged(Namespaced(""), after, e) && e.kind == Granted ==> e == Wide(h) || e == Narrow(h)
  {
    var c := Asks(h);
    StoreParts(h);
    AskedParts(h);
    assert Completed(c, TwoGrants(h), after, at, drafts, r);
    hide *;
    var added := Added(c, TwoGrants(h), at, drafts);
    ExactEffect(c, TwoGrants(h), after, at, drafts, r);
    AddedEvents(c, TwoGrants(h), after, at, end, drafts, draft, r);
    forall e ensures Logged(c.names, after, e) <==> Logged(c.names, TwoGrants(h), e) || e in added {
      LoggedAfter(c.names, TwoGrants(h), after, added, e);
    }
    forall e, f | e in added && f in added && (e.eventId == f.eventId || e.grantId == f.grantId) ensures e == f {
      OneEventPerGrant(h, at, drafts, e, f);
    }
    forall e | e in added
      ensures e.counterpartyId == "acme" && e.eventId == EffectId(h, "incident-i", e.grantId, REVOKED_EVENT)
    {
      OfAcme(h, at, drafts, e);
    }
    IdsDiffer(h);
    PremisesHold(h, after, added);
  }

  lemma OneEventPerGrant(h: Hash, at: Instant, drafts: map<string, Draft>, e: GrantEvent, f: GrantEvent)
    requires Injective(h) && Typed(TwoGrants(h), Namespaced(""))
    requires e in Added(Asks(h), TwoGrants(h), at, drafts) && f in Added(Asks(h), TwoGrants(h), at, drafts)
    requires e.eventId == f.eventId || e.grantId == f.grantId
    ensures e == f
  {
    var c, snapshot := Asks(h), Snapshot(Asks(h), TwoGrants(h));
    AskedParts(h);
    hide TwoGrants, Asks, EffectId, Resolved, Clear, Snapshot, Typed, Text.Ascending, Contains, FiredEvents, Injective,
         GrantIds;
    FiredMembers(c, TwoGrants(h), snapshot, at, drafts, Text.Sorted(GrantIds(snapshot)));
    FoldNamesGrant(e.grantId, None, snapshot);
    FoldNamesGrant(f.grantId, None, snapshot);
    if e.grantId != f.grantId {
      EffectsSeparateGrants(c, e.grantId, f.grantId);
    }
  }

  lemma OfAcme(h: Hash, at: Instant, drafts: map<string, Draft>, e: GrantEvent)
    requires Injective(h) && Typed(TwoGrants(h), Namespaced("")) && e in Added(Asks(h), TwoGrants(h), at, drafts)
    ensures e.counterpartyId == "acme" && e.eventId == EffectId(h, "incident-i", e.grantId, REVOKED_EVENT)
    ensures e.grantId in {"a", "b"} && e.workId == "w" && e.kind == Revoked
  {
    var c, snapshot := Asks(h), Snapshot(Asks(h), TwoGrants(h));
    AskedParts(h);
    SnapshotIs(h);
    hide TwoGrants, Asks, EffectId, Resolved, Clear, Snapshot, Typed, Text.Ascending, Contains, FiredEvents, Injective,
         GrantIds;
    FiredMembers(c, TwoGrants(h), snapshot, at, drafts, Text.Sorted(GrantIds(snapshot)));
    FoldNamesGrant(e.grantId, None, snapshot);
    var g := LastOfSelected(c, snapshot, at, e.grantId);
    LastEventWins(e.grantId, None, snapshot, g);
  }

  lemma SnapshotIs(h: Hash)
    requires Injective(h) && Typed(TwoGrants(h), Namespaced(""))
    ensures UniqueIds(Snapshot(Asks(h), TwoGrants(h)))
    ensures forall e :: e in Snapshot(Asks(h), TwoGrants(h)) <==> e == Wide(h) || e == Narrow(h)
  {
    StoreParts(h);
    IdsDiffer(h);
    forall e ensures e in Snapshot(Asks(h), TwoGrants(h)) <==> e == Wide(h) || e == Narrow(h) {
      SnapshotMembers(Asks(h), TwoGrants(h), e);
    }
  }

  lemma PremisesHold(h: Hash, after: Store, added: seq<GrantEvent>)
    requires Wide(h).eventId != Narrow(h).eventId
    requires NoneOfTheIncident(h)
    requires forall e :: Logged(Namespaced(""), after, e) <==> e == Wide(h) || e == Narrow(h) || e in added
    requires forall e, f :: e in added && f in added && (e.eventId == f.eventId || e.grantId == f.grantId) ==> e == f
    requires forall e :: e in added ==>
      e.counterpartyId == "acme" && e.workId == "w" && e.eventId == EffectId(h, "incident-i", e.grantId, REVOKED_EVENT)
    ensures Premises(Asks(h), after)
  {
    hide Logged, EffectId, DeterministicEventId;
  }

  /**
   * After any completed containment of this store from instant 2 on: the wider grant has ended, the narrower is active.
   */
  lemma NarrowerGrantSurvivesContainment(h: Hash, after: Store, at: Instant, end: Instant, drafts: map<string, Draft>,
                                         draft: string -> string, r: CascadeResult)
    requires Injective(h) && 2 <= at && Ran(Asks(h), TwoGrants(h), after, at, end, drafts, draft, r)
    ensures Typed(after, Namespaced(""))
    ensures ActiveGrants(View(Namespaced(""), after, "w", "acme"), None) == [Narrow(h)]
  {
    hide *;
    var c := Asks(h);
    LogAfter(h, after, at, end, drafts, draft, r);
    BothActiveBefore(h, None);
    StoreParts(h);
    AskedParts(h);
    WideIsExposed(h, at);
    NarrowIsNotExposed(h, at);
    Timely(h, at);
    assert Wide(h) in [Wide(h), Narrow(h)] && Narrow(h) in [Wide(h), Narrow(h)];
    EndsExactlyTheExposed(c, TwoGrants(h), after, at, end, drafts, draft, r, "acme", Wide(h));
    EndsExactlyTheExposed(c, TwoGrants(h), after, at, end, drafts, draft, r, "acme", Narrow(h));
    OnlyNarrowIsLeft(h, after);
  }

  lemma Timely(h: Hash, at: Instant)
    requires 2 <= at
    ensures NothingFromTheFuture(Asks(h), TwoGrants(h), at)
  {
    StoreParts(h);
    hide Logged, TwoGrants, DeterministicEventId;
  }

  lemma OnlyNarrowIsLeft(h: Hash, after: Store)
    requires Typed(after, Namespaced("")) && Premises(Asks(h), after)
    requires forall e :: Logged(Namespaced(""), after, e) && e.kind == Granted ==> e == Wide(h) || e == Narrow(h)
    requires var view := View(Namespaced(""), after, "w", "acme");
      Wide(h) !in ActiveGrants(view, None) && Narrow(h) in ActiveGrants(view, None)
    ensures ActiveGrants(View(Namespaced(""), after, "w", "acme"), None) == [Narrow(h)]
  {
    var view := View(Namespaced(""), after, "w", "acme");
    ViewsOf(Asks(h), after, "acme");
    hide View, Typed, Logged, UniqueIds, Wide, Narrow, Premises, ActiveGrants, Text.Leq;
    ActiveGrantsProjectTheFold(view, None);
    forall e | e in ActiveGrants(view, None) ensures e == Narrow(h) {
      ViewMembers(Namespaced(""), after, "w", "acme", e);
    }
    hide IsLast;
    JustOne(ActiveGrants(view, None), Narrow(h));
  }
}
