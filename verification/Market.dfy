/** The sandbox market: deterministic decisions on a session's append-only log. */
module Market {
  import opened Scopes
  import opened Lattice
  import opened Resolver
  import opened Evaluator
  import opened Effects
  import opened Gateway
  import opened Lease
  import opened Cascade
  import opened CascadeTheorems
  import Text

  /** The terms the artist declared for a work. */
  datatype Terms = Terms(workId: string, offeredUseTypes: seq<string>, commercialOk: bool, attributionRequired: bool)

  datatype Reason = OfferClosed | NotOffered | CommercialRefused | AttributionDeclined

  /** A revoked event whose use contains the requested one closes the standing offer. */
  ghost predicate OfferIsClosed(order: Order, events: seq<GrantEvent>, use: string) {
    exists e :: e in events && e.kind == Revoked && Contains(order, e.scope.useType, use)
  }

  ghost predicate IsOffered(order: Order, terms: Terms, use: string) {
    exists u :: u in terms.offeredUseTypes && Contains(order, u, use)
  }

  /** Every ground for refusal, and only those. */
  ghost predicate ReasonsAre(order: Order, terms: Terms, events: seq<GrantEvent>, asked: Scope, reasons: set<Reason>) {
    && (OfferClosed in reasons <==> OfferIsClosed(order, events, asked.useType))
    && (NotOffered in reasons <==> !IsOffered(order, terms, asked.useType))
    && (CommercialRefused in reasons <==> asked.commercial && !terms.commercialOk)
    && (AttributionDeclined in reasons <==> terms.attributionRequired && !asked.attributionRequired)
  }

  datatype Decision = RefusedFor(reasons: set<Reason>) | GrantedAs(event: GrantEvent, binds: bool) | Failed

  /** The session's log of one work. */
  function WorkLog(n: Names, s: Store, workId: string): seq<GrantEvent>
    requires Typed(s, n)
  {
    EventsOf(Query(s, n.grants, map["work_id" := workId]))
  }

  lemma WorkLogMembers(n: Names, s: Store, workId: string, e: GrantEvent)
    requires Typed(s, n)
    ensures e in WorkLog(n, s, workId) <==> Logged(n, s, e) && e.workId == workId
  {
    var filters := map["work_id" := workId];
    EventsOfMembers(Query(s, n.grants, filters), e);
    assert Satisfies(GrantDoc(e), filters) <==> e.workId == workId by { assert "work_id" in filters; }
  }

  class MarketDesk {
    const gateway: AgentGateway
    const sa: string
    const role: string
    const h: Hash
    const orders: Orders

    constructor (gateway: AgentGateway, sa: string, role: string, h: Hash, orders: Orders)
      ensures this.gateway == gateway && this.sa == sa && this.role == role && this.h == h && this.orders == orders
    {
      this.gateway := gateway;
      this.sa := sa;
      this.role := role;
      this.h := h;
      this.orders := orders;
    }

    /** The grounds for refusal, collected. */
    method Judge(terms: Terms, events: seq<GrantEvent>, asked: Scope) returns (reasons: set<Reason>)
      ensures ReasonsAre(orders.use, terms, events, asked, reasons)
    {
      reasons := {};
      var closed := false;
      for i := 0 to |events|
        invariant closed <==>
          exists j :: 0 <= j < i && events[j].kind == Revoked
            && Contains(orders.use, events[j].scope.useType, asked.useType)
      {
        if events[i].kind == Revoked && Contains(orders.use, events[i].scope.useType, asked.useType) {
          closed := true;
        }
      }
      var offered := false;
      for i := 0 to |terms.offeredUseTypes|
        invariant offered <==> exists j :: 0 <= j < i && Contains(orders.use, terms.offeredUseTypes[j], asked.useType)
      {
        if Contains(orders.use, terms.offeredUseTypes[i], asked.useType) {
          offered := true;
        }
      }
      reasons := (if closed then {OfferClosed} else {}) + (if !offered then {NotOffered} else {})
        + (if asked.commercial && !terms.commercialOk then {CommercialRefused} else {})
        + (if terms.attributionRequired && !asked.attributionRequired then {AttributionDeclined} else {});
    }

    /**
     * One request. The interpreted scope opens at the request's own instant; the grant id is drawn by the caller.
     * A refusal appends nothing; a grant is appended and then re-evaluated on the log as it stands.
     */
    method RequestLicense(n: Names, terms: Terms, counterparty: string, asked: Scope, grantId: string, clock: Clock,
                          now: Instant)
      returns (d: Decision, ghost at: Instant)
      requires ValidOrders(orders) && ValidScope(orders, asked) && asked.validFrom == now <= clock.now
      requires Typed(gateway.store, n)
      requires n.grants != n.outbox
      modifies gateway`denials, gateway`store, clock
      ensures Typed(gateway.store, n) && Extends(old(gateway.store), gateway.store)
      ensures d.RefusedFor? ==> gateway.store == old(gateway.store) && d.reasons != {}
      ensures d.RefusedFor? ==>
        ReasonsAre(orders.use, terms, WorkLog(n, old(gateway.store), terms.workId), asked, d.reasons)
      ensures d.GrantedAs? ==> ReasonsAre(orders.use, terms, WorkLog(n, old(gateway.store), terms.workId), asked, {})
      ensures d.GrantedAs? ==> d.event == GrantEventFor(h, terms.workId, counterparty, asked, grantId, now)
      ensures d.GrantedAs? ==> Appended(n, old(gateway.store), gateway.store, d.event)
      ensures d.GrantedAs? ==> at > now
      ensures d.Failed? <==>
        || !Reaches(gateway.policy, gateway.strict, sa, role, n.grants)
        || (&& ReasonsAre(orders.use, terms, WorkLog(n, old(gateway.store), terms.workId), asked, {})
            && !Appendable(gateway.ledger, n, old(gateway.store), DeterministicEventId(h, grantId, 1, 1)))
      ensures d.GrantedAs? && UniqueIds(WorkLog(n, gateway.store, terms.workId)) ==>
        NewGrant(n, old(gateway.store), grantId) && IsScopeCurrent(asked, at) ==> d.binds
      ensures d.GrantedAs? && UniqueIds(WorkLog(n, gateway.store, terms.workId)) ==>
        (d.binds <==> LogPermits(orders, WorkLog(n, gateway.store, terms.workId), asked, at))
    {
      hide *;
      FiltersDoNotMatter(gateway.policy, gateway.strict, sa, role, n.grants, map["work_id" := terms.workId]);
      ReachesUnfolded(gateway.policy, gateway.strict, sa, role, n.grants);
      LedgerIsOptional(gateway);
      at := now;
      ExtendsReflexive(gateway.store);
      WorkLogTyped(n, gateway.store, terms.workId);
      var read := gateway.ReadCollection(sa, role, n.grants, map["work_id" := terms.workId], map[], None);
      if !read.Done? {
        d := Failed;
        return;
      }
      var reasons := Judge(terms, EventsOf(read.value), asked);
      ReasonsAreOne(orders.use, terms, EventsOf(read.value), asked, reasons, {});
      if reasons != {} {
        d := RefusedFor(reasons);
        return;
      }
      var event := GrantEventFor(h, terms.workId, counterparty, asked, grantId, now);
      var t := clock.Read();
      GrantTyped(n, gateway.store, event);
      EventIdIsDerived(h, terms.workId, counterparty, asked, grantId, now);
      AppendableIff(gateway.ledger, n, gateway.store, event, gateway.LedgerEvents(), sa, role, t);
      var out := gateway.WriteDocument(sa, role, n.grants, event.eventId, GrantDoc(event), None, None, t);
      if !out.Done? {
        d := Failed;
        return;
      }
      AppendedOrTaken(n, old(gateway.store), event);
      ghost var grown := gateway.store;
      WorkLogTyped(n, gateway.store, terms.workId);
      read := gateway.ReadCollection(sa, role, n.grants, map["work_id" := terms.workId], map[], None);
      if !read.Done? {
        d := Failed;
        return;
      }
      var active := ActiveGrantEvents(EventsOf(read.value), None);
      var evaluatedAt := clock.Read();
      at := evaluatedAt;
      var answer := Permits(orders, active, asked, evaluatedAt);
      var binds := answer.Evaluated? && answer.result.permitted;
      d := GrantedAs(event, binds);
      GrantBinds(n, orders, h, old(gateway.store), grown, terms.workId, counterparty, asked, grantId, now, evaluatedAt,
                 answer);
      BindsIffLogPermits(n, orders, grown, terms.workId, asked, evaluatedAt, answer);
    }
  }

  /** An unleased write lands only without a ledger, and under an id nobody has taken. */
  ghost predicate Appendable(ledger: LeaseLedger?, n: Names, s: Store, eventId: string) {
    ledger == null && !HasId(Written(s, n.grants), eventId)
  }

  lemma LedgerIsOptional(gateway: AgentGateway)
    ensures gateway.LedgerEvents().None? <==> gateway.ledger == null
  {
  }

  lemma ReachesUnfolded(p: Policy, strict: bool, sa: string, role: string, collection: string)
    ensures Reaches(p, strict, sa, role, collection) <==>
      Access(p, strict, None, sa, role, collection, map[], map[]).Allowed?
  {
    hide Access;
  }

  lemma AppendableIff(ledger: LeaseLedger?, n: Names, s: Store, event: GrantEvent, events: Option<seq<LeaseEvent>>,
                      sa: string, role: string, now: Instant)
    requires events.None? <==> ledger == null
    ensures Appendable(ledger, n, s, event.eventId) <==>
      && LeaseCheck(events, sa, role, n.grants, None, now).Done?
      && !Taken(s, Write(n.grants, event.eventId, GrantDoc(event)))
  {
  }

  /** The grounds determine the set. */
  lemma ReasonsAreOne(order: Order, terms: Terms, events: seq<GrantEvent>, asked: Scope, a: set<Reason>,
                      b: set<Reason>)
    requires ReasonsAre(order, terms, events, asked, a)
    ensures ReasonsAre(order, terms, events, asked, b) <==> a == b
  {
    hide OfferIsClosed, IsOffered;
    forall r: Reason ensures ReasonsAre(order, terms, events, asked, b) ==> (r in a <==> r in b) {
      match r
      case OfferClosed =>
      case NotOffered =>
      case CommercialRefused =>
      case AttributionDeclined =>
    }
  }

  function GrantEventFor(h: Hash, workId: string, counterparty: string, asked: Scope, grantId: string,
                         now: Instant): GrantEvent {
    GrantEvent(DeterministicEventId(h, grantId, 1, 1), grantId, workId, counterparty, asked, Granted, None, now)
  }

  lemma EventIdIsDerived(h: Hash, workId: string, counterparty: string, asked: Scope, grantId: string, now: Instant)
    ensures GrantEventFor(h, workId, counterparty, asked, grantId, now).eventId
      == DeterministicEventId(h, grantId, 1, 1)
  {
  }

  /** The store gained this one grant event and nothing else. */
  ghost predicate Appended(n: Names, before: Store, after: Store, e: GrantEvent) {
    && after.served == before.served
    && Written(after, n.grants) == Written(before, n.grants) + EventEntries([e])
    && forall k :: k != n.grants ==> Written(after, k) == Written(before, k)
  }

  /** The grant id was drawn fresh: no event carries it. */
  ghost predicate NewGrant(n: Names, s: Store, grantId: string) {
    forall e :: Logged(n, s, e) ==> e.grantId != grantId
  }

  lemma WorkLogTyped(n: Names, s: Store, workId: string)
    requires Typed(s, n)
    ensures var docs := Query(s, n.grants, map["work_id" := workId]);
      (forall d :: d in docs ==> d.GrantDoc?) && EventsOf(docs) == WorkLog(n, s, workId)
  {
  }

  lemma GrantTyped(n: Names, s: Store, e: GrantEvent)
    requires Typed(s, n) && n.grants != n.outbox
    ensures var t := CreateAll(s, [Write(n.grants, e.eventId, GrantDoc(e))]);
      Typed(t, n) && Extends(s, t)
  {
    CreatePreservesTyped(s, n, [Write(n.grants, e.eventId, GrantDoc(e))]);
    CreateAllCases(s, [Write(n.grants, e.eventId, GrantDoc(e))]);
  }

  lemma AppendedOrTaken(n: Names, s: Store, e: GrantEvent)
    ensures var w := Write(n.grants, e.eventId, GrantDoc(e));
      !Taken(s, w) ==> Appended(n, s, CreateAll(s, [w]), e)
  {
    OneCreate(s, Write(n.grants, e.eventId, GrantDoc(e)));
    assert EventEntries([e]) == [Entry(e.eventId, GrantDoc(e))];
  }

  /**
   * The appended grant is its grant's only event, so it is active, and it admits the very scope it carries while that
   * is current.
   */
  lemma GrantBinds(n: Names, o: Orders, h: Hash, before: Store, after: Store, workId: string, counterparty: string,
                   asked: Scope, grantId: string, now: Instant, at: Instant, answer: Answer)
    requires Typed(before, n) && Typed(after, n)
    requires Appended(n, before, after, GrantEventFor(h, workId, counterparty, asked, grantId, now))
    requires AnswersFor(o, ActiveGrants(WorkLog(n, after, workId), None), asked, at, answer)
    ensures UniqueIds(WorkLog(n, after, workId)) && NewGrant(n, before, grantId) && IsScopeCurrent(asked, at)
      ==> answer.Evaluated? && answer.result.permitted
  {
    if UniqueIds(WorkLog(n, after, workId)) && NewGrant(n, before, grantId) && IsScopeCurrent(asked, at) {
      var g := GrantEventFor(h, workId, counterparty, asked, grantId, now);
      var log := WorkLog(n, after, workId);
      AppendedIsLast(n, before, after, workId, g);
      hide Logged, WorkLog, Typed, UniqueIds, Appended, IsLast, ActiveGrants, NewGrant;
      assert Inside(o, asked, asked);
      assert Admits(o, g.scope, asked, at);
      hide Admits, Inside;
      DecisionOverTheLog(o, log, None, asked, at, answer);
    }
  }

  /** Some grant, still its grant's latest event, covers a point at the instant and holds the whole request. */
  ghost predicate LogPermits(o: Orders, log: seq<GrantEvent>, asked: Scope, at: Instant) {
    exists e: GrantEvent :: IsLast(log, e.grantId, None, e) && e.kind == Granted && OpenAt(o, e.scope, at)
      && Inside(o, asked, e.scope)
  }

  lemma BindsIffLogPermits(n: Names, o: Orders, s: Store, workId: string, asked: Scope, at: Instant, answer: Answer)
    requires Typed(s, n) && ValidOrders(o) && ValidScope(o, asked)
    requires AnswersFor(o, ActiveGrants(WorkLog(n, s, workId), None), asked, at, answer)
    ensures UniqueIds(WorkLog(n, s, workId)) ==>
      answer.Evaluated? && (answer.result.permitted <==> LogPermits(o, WorkLog(n, s, workId), asked, at))
  {
    var log := WorkLog(n, s, workId);
    hide WorkLog, Typed, AnswersFor, UniqueIds, IsLast, ActiveGrants, Admits, OpenAt, Inside, ValidOrders, ValidScope;
    if UniqueIds(log) {
      DecisionOverTheLog(o, log, None, asked, at, answer);
      forall g: Scope ensures Admits(o, g, asked, at) <==> OpenAt(o, g, at) && Inside(o, asked, g) {
        AdmitsIff(o, g, asked, at);
      }
    }
  }

  lemma AppendedIsLast(n: Names, before: Store, after: Store, workId: string, g: GrantEvent)
    requires Typed(before, n) && Typed(after, n) && Appended(n, before, after, g) && NewGrant(n, before, g.grantId)
    requires g.workId == workId
    ensures IsLast(WorkLog(n, after, workId), g.grantId, None, g)
  {
    hide Logged, WorkLog, Typed, Appended;
    AppendedLog(n, before, after, g);
    forall e ensures e in WorkLog(n, after, workId) <==> Logged(n, after, e) && e.workId == workId {
      WorkLogMembers(n, after, workId, e);
    }
    Text.LeqTotal(g.eventId, g.eventId);
  }

  lemma AppendedLog(n: Names, before: Store, after: Store, g: GrantEvent)
    requires Appended(n, before, after, g)
    ensures forall e :: Logged(n, after, e) <==> Logged(n, before, e) || e == g
  {
    hide Logged;
    forall e ensures Logged(n, after, e) <==> Logged(n, before, e) || e == g {
      LoggedAfter(n, before, after, [g], e);
    }
  }

  // ------------------------------------------------------------------
  // Closed offers stay closed
  // ------------------------------------------------------------------

  /**
   * Once a cascade has fired on a grant held at H, then in every state the store can grow into, whoever appends
   * whatever, a request for any use H contains meets a closed offer on that work.
   */
  lemma ClosedOffersStayClosed(c: Config, before: Store, after: Store, later: Store, at: Instant, end: Instant,
                               drafts: map<string, Draft>, draft: string -> string, r: CascadeResult, gid: string,
                               use: string)
    requires Sound(c) && Ran(c, before, after, at, end, drafts, draft, r) && Extends(after, later)
    requires Typed(later, c.names)
    requires Fires(c, before, Snapshot(c, before), at, gid)
    requires Contains(c.order, Resolved(gid, None, Snapshot(c, before)).activeScope.value.useType, use)
    ensures OfferIsClosed(c.order, WorkLog(c.names, later, c.workId), use)
    ensures forall terms, asked, reasons ::
      ReasonsAre(c.order, terms, WorkLog(c.names, later, c.workId), asked, reasons) && asked.useType == use ==>
        OfferClosed in reasons
  {
    assert Typed(before, c.names) && Completed(c, before, after, at, drafts, r);
    hide Sound, Ran, Completed, Typed, Resolved, Snapshot, Contains, Clear, Added, WorkLog, Logged, Extends, Selected,
         FiredEvents, GrantIds, EffectId, Text.Ascending;
    ExactEffect(c, before, after, at, drafts, r);
    var e := FiredEventOf(c, before, at, drafts, gid);
    LoggedAfter(c.names, before, after, Added(c, before, at, drafts), e);
    LoggedPersists(c.names, after, later, e);
    WorkLogMembers(c.names, later, c.workId, e);
  }

  lemma FiredEventOf(c: Config, before: Store, at: Instant, drafts: map<string, Draft>, gid: string)
    returns (e: GrantEvent)
    requires Typed(before, c.names) && Fires(c, before, Snapshot(c, before), at, gid)
    ensures e in Added(c, before, at, drafts) && e.kind == Revoked && e.workId == c.workId
    ensures e.scope == Resolved(gid, None, Snapshot(c, before)).activeScope.value
  {
    hide Resolved, Clear, EffectId, Snapshot, FiredEvents, GrantIds, Text.Ascending, Contains, ScopeWindowHasClosed;
    var snapshot := Snapshot(c, before);
    SelectedIsLogged(c, gid, snapshot, at);
    FiredMembers(c, before, snapshot, at, drafts, Text.Sorted(GrantIds(snapshot)));
    e := RevokedEventFor(c, Resolved(gid, None, snapshot), DraftFor(drafts, gid));
  }
}
