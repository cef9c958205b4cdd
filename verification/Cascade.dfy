/** The revocation cascade: select, terminate-and-record atomically, then deliver what is owed. */
module Cascade {
  import opened Scopes
  import opened Lattice
  import opened Resolver
  import opened Evaluator
  import opened Effects
  import opened Gateway
  import opened Sorting
  import L = Lease
  import Text

  /** The collections of one deployment: production has no prefix, the sandbox has "demo_". */
  datatype Names = Names(grants: string, outbox: string, notices: string)

  function Namespaced(ns: string): (n: Names)
    ensures n.grants != n.outbox && n.grants != n.notices && n.outbox != n.notices
  {
    var n := Names(ns + "grants", ns + "revocation_outbox", ns + "revocation_notices");
    assert |n.grants| < |n.outbox| < |n.notices|;
    n
  }

  /** Everything one cascade call is parameterised by. */
  datatype Config = Config(h: Hash, names: Names, order: Order, operationId: string, workId: string, useType: string)

  /** The documents in the cascade's collections are of the collections' types. */
  ghost predicate Typed(s: Store, n: Names) {
    && (forall d :: d in Served(s, n.grants) + DocsOf(Written(s, n.grants)) ==> d.GrantDoc?)
    && (forall d :: d in Served(s, n.outbox) + DocsOf(Written(s, n.outbox)) ==> d.OutboxDoc?)
  }

  function EventsOf(docs: seq<Doc>): (r: seq<GrantEvent>)
    requires forall d :: d in docs ==> d.GrantDoc?
    ensures |r| == |docs| && forall i :: 0 <= i < |docs| ==> r[i] == docs[i].event
  {
    seq(|docs|, i requires 0 <= i < |docs| => docs[i].event)
  }

  function RowsOf(docs: seq<Doc>): (r: seq<OutboxRow>)
    requires forall d :: d in docs ==> d.OutboxDoc?
    ensures |r| == |docs| && forall i :: 0 <= i < |docs| ==> r[i] == docs[i].row
  {
    seq(|docs|, i requires 0 <= i < |docs| => docs[i].row)
  }

  /** The grant events of the work, as the cascade reads them. */
  function Snapshot(c: Config, s: Store): seq<GrantEvent>
    requires Typed(s, c.names)
  {
    EventsOf(Query(s, c.names.grants, map["work_id" := c.workId]))
  }

  /** The outbox rows of the operation. */
  function Owed(c: Config, s: Store): seq<OutboxRow>
    requires Typed(s, c.names)
  {
    RowsOf(Query(s, c.names.outbox, map["operation_id" := c.operationId]))
  }

  // ------------------------------------------------------------------
  // Phase 1: terminate and record the obligation
  // ------------------------------------------------------------------

  /** Affected: still able to permit the revoked use at some instant from `at` on. */
  predicate Selected(c: Config, st: GrantState, at: Instant) {
    && st.status == Active && st.activeScope.Some? && st.counterpartyId.Some?
    && Contains(c.order, st.activeScope.value.useType, c.useType)
    && !ScopeWindowHasClosed(st.activeScope.value, at)
  }

  /** The notice text drafted for a grant, and the instant its batch carries. */
  datatype Draft = Draft(text: string, now: Instant)

  function DraftFor(drafts: map<string, Draft>, gid: string): Draft {
    if gid in drafts then drafts[gid] else Draft("", 0)
  }

  function RevokedEventFor(c: Config, st: GrantState, d: Draft): GrantEvent
    requires st.activeScope.Some? && st.counterpartyId.Some?
  {
    GrantEvent(EffectId(c.h, c.operationId, st.grantId, REVOKED_EVENT), st.grantId, c.workId, st.counterpartyId.value,
               st.activeScope.value, Revoked, None, d.now)
  }

  function RowFor(c: Config, st: GrantState, d: Draft): OutboxRow
    requires st.counterpartyId.Some?
  {
    OutboxRow(EffectId(c.h, c.operationId, st.grantId, OUTBOX), c.operationId, st.grantId, c.workId,
              st.counterpartyId.value, d.text, d.now, d.now)
  }

  /** The terminating event and the owed notice: one batch. */
  function Pair(c: Config, st: GrantState, d: Draft): seq<Write>
    requires st.activeScope.Some? && st.counterpartyId.Some?
  {
    [Write(c.names.grants, EffectId(c.h, c.operationId, st.grantId, REVOKED_EVENT),
           GrantDoc(RevokedEventFor(c, st, d))),
     Write(c.names.outbox, EffectId(c.h, c.operationId, st.grantId, OUTBOX), OutboxDoc(RowFor(c, st, d)))]
  }

  function TerminateOne(c: Config, s: Store, snapshot: seq<GrantEvent>, at: Instant, drafts: map<string, Draft>,
                        gid: string): Store {
    var st := Resolved(gid, None, snapshot);
    if Selected(c, st, at) then CreateAll(s, Pair(c, st, DraftFor(drafts, gid))) else s
  }

  function Phase1(c: Config, s: Store, snapshot: seq<GrantEvent>, at: Instant, drafts: map<string, Draft>,
                  gids: seq<string>): Store {
    if gids == [] then s
    else TerminateOne(c, Phase1(c, s, snapshot, at, drafts, gids[..|gids| - 1]), snapshot, at, drafts, gids[|gids| - 1])
  }

  function NewOne(c: Config, s: Store, snapshot: seq<GrantEvent>, at: Instant, drafts: map<string, Draft>,
                  gid: string): nat {
    var st := Resolved(gid, None, snapshot);
    if Selected(c, st, at) && forall i :: 0 <= i < 2 ==> !Taken(s, Pair(c, st, DraftFor(drafts, gid))[i]) then 1 else 0
  }

  /** How many of the pairs were committed by this very call. */
  function NewlyCommitted(c: Config, s: Store, snapshot: seq<GrantEvent>, at: Instant, drafts: map<string, Draft>,
                          gids: seq<string>): nat {
    if gids == [] then 0
    else
      var front, gid := gids[..|gids| - 1], gids[|gids| - 1];
      NewlyCommitted(c, s, snapshot, at, drafts, front)
        + NewOne(c, Phase1(c, s, snapshot, at, drafts, front), snapshot, at, drafts, gid)
  }

  datatype AffectedGrant = AffectedGrant(grantId: string, counterpartyId: string, originalScope: Scope,
                                         terminatedScopes: seq<string>)

  function AffectedOne(c: Config, snapshot: seq<GrantEvent>, at: Instant, gid: string): seq<AffectedGrant> {
    var st := Resolved(gid, None, snapshot);
    if Selected(c, st, at)
    then [AffectedGrant(gid, st.counterpartyId.value, st.activeScope.value,
                        Text.Sorted(Reach(c.order, st.activeScope.value.useType)))]
    else []
  }

  function Affected(c: Config, snapshot: seq<GrantEvent>, at: Instant, gids: seq<string>): seq<AffectedGrant> {
    if gids == [] then []
    else Affected(c, snapshot, at, gids[..|gids| - 1]) + AffectedOne(c, snapshot, at, gids[|gids| - 1])
  }

  function TerminatedUnion(affected: seq<AffectedGrant>): set<string> {
    set a, t | a in affected && t in a.terminatedScopes :: t
  }

  // ------------------------------------------------------------------
  // Phase 2: discharge the obligations
  // ------------------------------------------------------------------

  function NoticeFor(row: OutboxRow): Notice {
    Notice(row.grantId, row.counterpartyId, row.revokedAt, row.noticeText)
  }

  function NoticeWrite(c: Config, row: OutboxRow): Write {
    Write(c.names.notices, EffectId(c.h, c.operationId, row.grantId, NOTICE), NoticeDoc(NoticeFor(row)))
  }

  function ReceiptFor(c: Config, row: OutboxRow): Receipt {
    Receipt(EffectId(c.h, c.operationId, row.grantId, RECEIPT), row.grantId, row.counterpartyId, row.revokedAt)
  }

  predicate RowLeq(a: OutboxRow, b: OutboxRow) {
    Text.Leq(a.grantId, b.grantId)
  }

  function Phase2(c: Config, s: Store, rows: seq<OutboxRow>): Store {
    if rows == [] then s
    else CreateAll(Phase2(c, s, rows[..|rows| - 1]), [NoticeWrite(c, rows[|rows| - 1])])
  }

  function Receipts(c: Config, rows: seq<OutboxRow>): (r: seq<Receipt>)
    ensures |r| == |rows| && forall i :: 0 <= i < |rows| ==> r[i] == ReceiptFor(c, rows[i])
  {
    seq(|rows|, i requires 0 <= i < |rows| => ReceiptFor(c, rows[i]))
  }

  // ------------------------------------------------------------------
  // The agent
  // ------------------------------------------------------------------

  /** A wall clock whose readings strictly increase. */
  class Clock {
    var now: Instant

    constructor (start: Instant)
      ensures now == start
    {
      now := start;
    }

    method Read() returns (t: Instant)
      modifies this
      ensures t == now && t > old(now)
    {
      var step: int :| step > 0;
      now := now + step;
      t := now;
    }
  }

  datatype CascadeResult = CascadeResult(
    operationId: string,
    revokedUseType: string,
    derivedScopes: seq<string>,
    terminatedScopes: seq<string>,
    derivation: seq<Derived>,
    affected: seq<AffectedGrant>,
    receipts: seq<Receipt>,
    replayed: nat)

  /** The instants a run of phase 1 stamps: all after the cascade's own instant. */
  ghost predicate DraftsAfter(drafts: map<string, Draft>, at: Instant, upTo: Instant) {
    forall g :: g in drafts ==> at < drafts[g].now <= upTo
  }

  /** What a completed call did and reported, as a function of the store it started from. */
  ghost predicate Completed(c: Config, before: Store, after: Store, at: Instant, drafts: map<string, Draft>,
                            r: CascadeResult) {
    && Typed(before, c.names)
    && var snapshot := Snapshot(c, before);
       var gids := Text.Sorted(GrantIds(snapshot));
       var mid := Phase1(c, before, snapshot, at, drafts, gids);
       && Typed(mid, c.names)
       && var rows := SortBy(RowLeq, Owed(c, mid));
       && after == Phase2(c, mid, rows)
       && r.operationId == c.operationId && r.revokedUseType == c.useType
       && r.derivedScopes == Text.Sorted(Reach(c.order, c.useType))
       && Derivation(c.order, c.useType, r.derivation)
       && r.affected == Affected(c, snapshot, at, gids)
       && r.terminatedScopes == Text.Sorted(TerminatedUnion(r.affected))
       && r.receipts == Receipts(c, rows)
       && r.replayed == Excess(|rows|, NewlyCommitted(c, before, snapshot, at, drafts, gids))
  }

  /** `max(0, a - b)` */
  function Excess(a: nat, b: nat): nat {
    if a > b then a - b else 0
  }

  lemma CreatePreservesTyped(s: Store, n: Names, writes: seq<Write>)
    requires Typed(s, n)
    requires forall w :: w in writes ==>
      (w.collection == n.grants ==> w.doc.GrantDoc?) && (w.collection == n.outbox ==> w.doc.OutboxDoc?)
    ensures Typed(CreateAll(s, writes), n)
  {
    hide CreateAll, AssignAll, Tail, AllFree, Extends;
    CreateAllCases(s, writes);
    if AllFree(s, writes) {
      BatchAppends(s, writes);
      AllOfTail(writes, n.grants, (d: Doc) => d.GrantDoc?);
      AllOfTail(writes, n.outbox, (d: Doc) => d.OutboxDoc?);
      BucketConcat(Written(s, n.grants), Tail(writes, n.grants));
      BucketConcat(Written(s, n.outbox), Tail(writes, n.outbox));
    }
  }

  lemma BucketConcat(a: Bucket, b: Bucket)
    ensures DocsOf(a + b) == DocsOf(a) + DocsOf(b)
  {
  }

  lemma AllOfTail(writes: seq<Write>, collection: string, p: Doc -> bool)
    requires forall w :: w in writes && w.collection == collection ==> p(w.doc)
    ensures forall d :: d in DocsOf(Tail(writes, collection)) ==> p(d)
  {
    forall d | d in DocsOf(Tail(writes, collection)) ensures p(d) {
      TailDocs(writes, collection, d);
    }
  }

  lemma TailDocs(writes: seq<Write>, collection: string, d: Doc)
    requires d in DocsOf(Tail(writes, collection))
    ensures exists w :: w in writes && w.collection == collection && w.doc == d
  {
    TailHolds(writes, collection);
    var b := Tail(writes, collection);
    var i :| 0 <= i < |b| && b[i].doc == d;
    assert b[i] in b;
    LastDocMember(writes, collection, b[i].id);
  }

  lemma {:induction false} LastDocMember(writes: seq<Write>, collection: string, id: string)
    ensures var d := LastDoc(writes, collection, id);
      d.Some? ==> Write(collection, id, d.value) in writes
  {
    if writes != [] {
      LastDocMember(writes[..|writes| - 1], collection, id);
    }
  }

  lemma StoreGrowsThroughPhases(c: Config, s: Store, writes: seq<Write>, t: Store)
    requires Extends(t, s) || t == s
    ensures Extends(t, CreateAll(s, writes)) && Extends(s, s)
  {
    CreateAllCases(s, writes);
    ExtendsTransitive(t, s, CreateAll(s, writes));
  }

  lemma PairTyped(c: Config, s: Store, st: GrantState, d: Draft)
    requires Typed(s, c.names) && c.names.grants != c.names.outbox
    requires st.activeScope.Some? && st.counterpartyId.Some?
    ensures Typed(CreateAll(s, Pair(c, st, d)), c.names)
  {
    CreatePreservesTyped(s, c.names, Pair(c, st, d));
  }

  lemma NoticeTyped(c: Config, s: Store, row: OutboxRow)
    requires Typed(s, c.names) && c.names.notices != c.names.grants && c.names.notices != c.names.outbox
    ensures Typed(CreateAll(s, [NoticeWrite(c, row)]), c.names)
  {
    CreatePreservesTyped(s, c.names, [NoticeWrite(c, row)]);
  }

  lemma PairLength(c: Config, st: GrantState, d: Draft)
    requires st.activeScope.Some? && st.counterpartyId.Some?
    ensures |Pair(c, st, d)| == 2
  {
  }

  lemma PhaseSteps(c: Config, s: Store, snapshot: seq<GrantEvent>, at: Instant, drafts: map<string, Draft>,
                   gids: seq<string>, i: nat)
    requires i <= |gids|
    ensures i == 0 ==> Phase1(c, s, snapshot, at, drafts, gids[..i]) == s
    ensures i == 0 ==>
      NewlyCommitted(c, s, snapshot, at, drafts, gids[..i]) == 0 && Affected(c, snapshot, at, gids[..i]) == []
    ensures i < |gids| ==>
      && Phase1(c, s, snapshot, at, drafts, gids[..i + 1])
         == TerminateOne(c, Phase1(c, s, snapshot, at, drafts, gids[..i]), snapshot, at, drafts, gids[i])
      && Affected(c, snapshot, at, gids[..i + 1]) == Affected(c, snapshot, at, gids[..i])
        + AffectedOne(c, snapshot, at, gids[i])
      && NewlyCommitted(c, s, snapshot, at, drafts, gids[..i + 1])
         == NewlyCommitted(c, s, snapshot, at, drafts, gids[..i])
           + NewOne(c, Phase1(c, s, snapshot, at, drafts, gids[..i]), snapshot, at, drafts, gids[i])
    ensures i == |gids| ==> gids[..i] == gids
  {
    if i < |gids| {
      assert gids[..i + 1][..i] == gids[..i];
    }
  }

  /** A draft for a grant not yet reached does not change what was done for earlier grants. */
  lemma {:induction false} LaterDraftsDoNotMatter(c: Config, s: Store, snapshot: seq<GrantEvent>, at: Instant,
                                                  drafts: map<string, Draft>, gid: string, d: Draft, gids: seq<string>)
    requires gid !in gids
    ensures Phase1(c, s, snapshot, at, drafts[gid := d], gids) == Phase1(c, s, snapshot, at, drafts, gids)
    ensures NewlyCommitted(c, s, snapshot, at, drafts[gid := d], gids)
      == NewlyCommitted(c, s, snapshot, at, drafts, gids)
  {
    hide Resolved, Selected, CreateAll, Pair, Taken;
    if gids != [] {
      assert gids == gids[..|gids| - 1] + [gids[|gids| - 1]];
      LaterDraftsDoNotMatter(c, s, snapshot, at, drafts, gid, d, gids[..|gids| - 1]);
      assert DraftFor(drafts[gid := d], gids[|gids| - 1]) == DraftFor(drafts, gids[|gids| - 1]);
    }
  }

  lemma Phase2Steps(c: Config, s: Store, rows: seq<OutboxRow>, i: nat)
    requires i <= |rows|
    ensures i == 0 ==> Phase2(c, s, rows[..i]) == s && Receipts(c, rows[..i]) == []
    ensures i < |rows| ==> Phase2(c, s, rows[..i + 1]) == CreateAll(Phase2(c, s, rows[..i]), [NoticeWrite(c, rows[i])])
    ensures i < |rows| ==> Receipts(c, rows[..i + 1]) == Receipts(c, rows[..i]) + [ReceiptFor(c, rows[i])]
    ensures i == |rows| ==> rows[..i] == rows
  {
    if i < |rows| {
      assert rows[..i + 1][..i] == rows[..i];
    }
  }

  lemma NoticeCollection(c: Config, row: OutboxRow)
    ensures NoticeWrite(c, row).collection == c.names.notices
  {
  }

  lemma NotInFront(gids: seq<string>, i: nat)
    requires Text.Ascending(gids) && i < |gids|
    ensures gids[i] !in gids[..i]
  {
  }

  /** `operation_id or <fresh>`: no id and the empty id both mean a new operation. */
  function OperationOr(requested: Option<string>, newId: string): string {
    if requested.Some? && requested.value != "" then requested.value else newId
  }

  // ------------------------------------------------------------------
  // When a call completes
  // ------------------------------------------------------------------

  /** The policy lets the role have the collection, asked for without an identity. */
  predicate Reaches(p: Policy, strict: bool, sa: string, role: string, collection: string) {
    Access(p, strict, None, sa, role, collection, map[], map[]).Allowed?
  }

  /** The policy lets the role have the three collections, and keeps grants and outbox in one database. */
  ghost predicate Cleared(p: Policy, strict: bool, sa: string, role: string, n: Names) {
    && (forall k :: k in [n.grants, n.outbox, n.notices] ==> Reaches(p, strict, sa, role, k))
    && DatabaseForCollection(p, role, n.grants) == DatabaseForCollection(p, role, n.outbox)
  }

  /** No ledger, or the lease is named and active at the instant. */
  predicate LeasePasses(ledger: Option<seq<L.LeaseEvent>>, leaseId: Option<string>, t: Instant) {
    ledger.Some? ==> leaseId.Some? && leaseId.value != "" && L.IsActive(ledger.value, leaseId.value, t)
  }

  /** The lease passes at every reading of the clock from here to there. */
  ghost predicate LeaseHolds(ledger: Option<seq<L.LeaseEvent>>, leaseId: Option<string>, from: Instant, to: Instant) {
    forall t :: from < t <= to ==> LeasePasses(ledger, leaseId, t)
  }

  /** A session-less request is judged alike whatever filters it carries. */
  lemma FiltersDoNotMatter(p: Policy, strict: bool, sa: string, role: string, collection: string,
                           filters: map<string, string>)
    ensures Access(p, strict, None, sa, role, collection, filters, map[]).Allowed? <==>
      Reaches(p, strict, sa, role, collection)
  {
    hide GetActionPermission, Identify;
  }

  lemma ClearedFor(p: Policy, strict: bool, sa: string, role: string, n: Names, k: string)
    requires Cleared(p, strict, sa, role, n) && k in {n.grants, n.outbox, n.notices}
    ensures Reaches(p, strict, sa, role, k)
  {
    hide Reaches;
    assert k in [n.grants, n.outbox, n.notices];
  }

  lemma LeaseIsDone(ledger: Option<seq<L.LeaseEvent>>, sa: string, role: string, collection: string,
                    leaseId: Option<string>, now: Instant)
    requires LeasePasses(ledger, leaseId, now)
    ensures LeaseCheck(ledger, sa, role, collection, leaseId, now).Done?
  {
    hide L.IsActive;
  }

  lemma HoldsAt(ledger: Option<seq<L.LeaseEvent>>, leaseId: Option<string>, from: Instant, to: Instant, t: Instant)
    requires LeaseHolds(ledger, leaseId, from, to) && from < t <= to
    ensures LeasePasses(ledger, leaseId, t)
  {
    hide LeasePasses;
  }

  lemma HoldsWithin(ledger: Option<seq<L.LeaseEvent>>, leaseId: Option<string>, from: Instant, to: Instant, a: Instant,
                    b: Instant)
    requires LeaseHolds(ledger, leaseId, from, to) && from <= a && b <= to
    ensures LeaseHolds(ledger, leaseId, a, b)
  {
    hide LeasePasses;
  }

  /** A cleared role's pair passes policy, lease and routing, so it is committed or collides. */
  lemma PairPasses(p: Policy, strict: bool, ledger: Option<seq<L.LeaseEvent>>, sa: string, role: string, c: Config,
                   st: GrantState, d: Draft, leaseId: Option<string>, nows: seq<Instant>)
    requires st.activeScope.Some? && st.counterpartyId.Some? && Cleared(p, strict, sa, role, c.names) && |nows| == 2
    requires forall t :: t in nows ==> LeasePasses(ledger, leaseId, t)
    ensures BatchCheck(p, strict, ledger, sa, role, Pair(c, st, d), leaseId, nows).Done?
    ensures |Databases(p, role, Pair(c, st, d))| <= 1
  {
    var pair := Pair(c, st, d);
    ClearedFor(p, strict, sa, role, c.names, c.names.grants);
    ClearedFor(p, strict, sa, role, c.names, c.names.outbox);
    assert pair[0].collection == c.names.grants && pair[1].collection == c.names.outbox && |pair| == 2;
    assert nows[0] in nows && nows[1] in nows;
    hide EffectId, LeasePasses, LeaseCheck, Access;
    LeaseIsDone(ledger, sa, role, pair[0].collection, leaseId, nows[0]);
    LeaseIsDone(ledger, sa, role, pair[1].collection, leaseId, nows[1]);
    BatchSteps(p, strict, ledger, sa, role, pair, leaseId, nows, 0);
    BatchSteps(p, strict, ledger, sa, role, pair, leaseId, nows, 1);
    assert pair[..2] == pair && nows[..2] == nows;
    OneDatabase(p, role, pair);
  }

  lemma OneDatabase(p: Policy, role: string, pair: seq<Write>)
    requires |pair| == 2
    requires DatabaseForCollection(p, role, pair[0].collection) == DatabaseForCollection(p, role, pair[1].collection)
    ensures |Databases(p, role, pair)| <= 1
  {
    hide DatabaseForCollection;
    assert pair == [pair[0], pair[1]];
    assert Databases(p, role, pair) == {DatabaseForCollection(p, role, pair[0].collection)};
  }

  class RevocationPropagator {
    const gateway: AgentGateway
    const sa: string
    const role: string
    const ns: string
    const h: Hash
    const order: Order

    constructor (gateway: AgentGateway, sa: string, role: string, ns: string, h: Hash, order: Order)
      ensures this.gateway == gateway && this.sa == sa && this.role == role && this.ns == ns && this.h == h
      ensures this.order == order
    {
      this.gateway := gateway;
      this.sa := sa;
      this.role := role;
      this.ns := ns;
      this.h := h;
      this.order := order;
    }

    /** The policy lets the propagator have what a call needs. */
    ghost predicate IsCleared() {
      Cleared(gateway.policy, gateway.strict, sa, role, Namespaced(ns))
    }

    /** Everything the call asks for it will be given: policy, routing, and the lease at every reading in between. */
    ghost predicate WillPass(leaseId: Option<string>, from: Instant, to: Instant)
      reads gateway.ledger
    {
      IsCleared() && LeaseHolds(gateway.LedgerEvents(), leaseId, from, to)
    }

    lemma PassingIsCleared()
      ensures forall leaseId, from, to :: WillPass(leaseId, from, to) ==> IsCleared()
    {
      hide LeaseHolds, IsCleared;
    }

    lemma PassesWithin(leaseId: Option<string>, from: Instant, to: Instant, a: Instant, b: Instant)
      requires from <= a && b <= to
      ensures WillPass(leaseId, from, to) ==> WillPass(leaseId, a, b)
    {
      hide IsCleared, LeasePasses;
    }

    lemma PairWillPass(c: Config, st: GrantState, d: Draft, leaseId: Option<string>, from: Instant, to: Instant,
                       x: Instant, y: Instant)
      requires st.activeScope.Some? && st.counterpartyId.Some? && c.names == Namespaced(ns) && from < x < y <= to
      ensures WillPass(leaseId, from, to) ==>
        && BatchCheck(gateway.policy, gateway.strict, gateway.LedgerEvents(), sa, role, Pair(c, st, d), leaseId,
                      [x, y]).Done?
        && |Databases(gateway.policy, role, Pair(c, st, d))| <= 1
    {
      if WillPass(leaseId, from, to) {
        HoldsAt(gateway.LedgerEvents(), leaseId, from, to, x);
        HoldsAt(gateway.LedgerEvents(), leaseId, from, to, y);
        hide Cleared, LeasePasses, LeaseHolds;
        PairPasses(gateway.policy, gateway.strict, gateway.LedgerEvents(), sa, role, c, st, d, leaseId, [x, y]);
      }
    }

    lemma OneWillPass(k: string, leaseId: Option<string>, from: Instant, to: Instant, x: Instant)
      requires from < x <= to && k in {Namespaced(ns).grants, Namespaced(ns).outbox, Namespaced(ns).notices}
      ensures WillPass(leaseId, from, to) ==>
        && Access(gateway.policy, gateway.strict, None, sa, role, k, map[], map[]).Allowed?
        && LeaseCheck(gateway.LedgerEvents(), sa, role, k, leaseId, x).Done?
    {
      if WillPass(leaseId, from, to) {
        HoldsAt(gateway.LedgerEvents(), leaseId, from, to, x);
        ClearedFor(gateway.policy, gateway.strict, sa, role, Namespaced(ns), k);
        LeaseIsDone(gateway.LedgerEvents(), sa, role, k, leaseId, x);
        hide Access, LeaseCheck, LeasePasses, LeaseHolds, Cleared;
      }
    }

    lemma ReadWillPass(k: string, filters: map<string, string>)
      requires k in {Namespaced(ns).grants, Namespaced(ns).outbox, Namespaced(ns).notices}
      ensures IsCleared() ==> Access(gateway.policy, gateway.strict, None, sa, role, k, filters, map[]).Allowed?
    {
      FiltersDoNotMatter(gateway.policy, gateway.strict, sa, role, k, filters);
      if IsCleared() {
        ClearedFor(gateway.policy, gateway.strict, sa, role, Namespaced(ns), k);
      }
      hide Access, Cleared;
    }

    function ConfigFor(workId: string, useType: string, operationId: string): Config {
      Config(h, Namespaced(ns), order, operationId, workId, useType)
    }

    /** One termination: draft, read the clock, commit the pair; a collision is the idempotency signal. */
    method TerminateGrant(c: Config, st: GrantState, leaseId: Option<string>, clock: Clock, text: string)
      returns (out: Outcome<bool>, ghost d: Draft)
      requires c.names.grants != c.names.outbox && st.activeScope.Some? && st.counterpartyId.Some?
      requires Typed(gateway.store, c.names)
      modifies gateway`denials, gateway`store, clock
      ensures d.text == text && old(clock.now) < d.now <= clock.now
      ensures Typed(gateway.store, c.names) && Extends(old(gateway.store), gateway.store)
      ensures out.Done? ==> gateway.store == CreateAll(old(gateway.store), Pair(c, st, d))
      ensures out.Done? ==> (out.value <==> AllFree(old(gateway.store), Pair(c, st, d)))
      ensures !out.Done? ==> gateway.store == old(gateway.store)
      ensures !out.AlreadyExists?
      ensures c.names == Namespaced(ns) && WillPass(leaseId, old(clock.now), clock.now) ==> out.Done?
    {
      hide *;
      var now := clock.Read();
      d := Draft(text, now);
      var lease1 := clock.Read();
      var lease2 := clock.Read();
      if c.names == Namespaced(ns) {
        PairWillPass(c, st, Draft(text, now), leaseId, old(clock.now), clock.now, lease1, lease2);
      }
      var pair := Pair(c, st, Draft(text, now));
      PairLength(c, st, d);
      PairTyped(c, gateway.store, st, d);
      StoreGrowsThroughPhases(c, gateway.store, pair, gateway.store);
      var r := gateway.WriteDocumentsAtomic(sa, role, pair, leaseId, [lease1, lease2]);
      CollisionSaysSo(old(gateway.store), pair, r);
      match r {
        case Done(_) => out := Done(true);
        case AlreadyExists(_, _) => out := Done(false);
        case Denied(denial) => out := Denied(denial);
        case Crashed => out := Crashed;
      }
    }

    /** Delivers every notice the operation's outbox owes; redelivery collides and is skipped. */
    method DeliverPendingNotices(c: Config, leaseId: Option<string>, clock: Clock) returns (out: Outcome<seq<Receipt>>)
      requires c.names == Namespaced(ns) && Typed(gateway.store, c.names)
      modifies gateway`denials, gateway`store, clock
      ensures Extends(old(gateway.store), gateway.store) && Typed(gateway.store, c.names) && !out.AlreadyExists?
      ensures old(clock.now) <= clock.now
      ensures out.Done? ==>
        var rows := SortBy(RowLeq, old(Owed(c, gateway.store)));
        gateway.store == Phase2(c, old(gateway.store), rows) && out.value == Receipts(c, rows)
      ensures WillPass(leaseId, old(clock.now), clock.now) ==> out.Done?
    {
      hide *;
      ReadWillPass(c.names.outbox, map["operation_id" := c.operationId]);
      PassingIsCleared();
      ExtendsReflexive(gateway.store);
      var read := gateway.ReadCollection(sa, role, c.names.outbox, map["operation_id" := c.operationId], map[], None);
      match read {
        case Denied(denial) => return Denied(denial);
        case Done(docs) =>
          QueriedAreRows(c, gateway.store);
          var rows := SortBy(RowLeq, RowsOf(docs));
          var receipts: seq<Receipt> := [];
          Phase2Steps(c, gateway.store, rows, 0);
          for i := 0 to |rows|
            invariant gateway.store == Phase2(c, old(gateway.store), rows[..i])
            invariant Extends(old(gateway.store), gateway.store) && Typed(gateway.store, c.names)
            invariant receipts == Receipts(c, rows[..i]) && old(clock.now) <= clock.now
          {
            Phase2Steps(c, old(gateway.store), rows, i);
            StoreGrowsThroughPhases(c, gateway.store, [NoticeWrite(c, rows[i])], old(gateway.store));
            NoticeTyped(c, gateway.store, rows[i]);
            var now := clock.Read();
            var w := NoticeWrite(c, rows[i]);
            NoticeCollection(c, rows[i]);
            OneWillPass(w.collection, leaseId, old(clock.now), now, now);
            PassesWithin(leaseId, old(clock.now), clock.now, old(clock.now), now);
            var r := gateway.WriteDocument(sa, role, w.collection, w.id, w.doc, leaseId, None, now);
            match r {
              case Done(_) =>
              case AlreadyExists(_, _) =>
              case Denied(denial) => return Denied(denial);
              case Crashed => return Crashed;
            }
            receipts := receipts + [ReceiptFor(c, rows[i])];
          }
          Phase2Steps(c, old(gateway.store), rows, |rows|);
          return Done(receipts);
      }
    }

    /** The loop of phase 1, over the grants of the snapshot in id order. */
    method TerminateAffected(c: Config, events: seq<GrantEvent>, cascadeAt: Instant, gids: seq<string>,
                             leaseId: Option<string>, clock: Clock, draft: string -> string)
      returns (out: Outcome<seq<AffectedGrant>>, newlyCommitted: nat, ghost drafts: map<string, Draft>)
      requires c.names.grants != c.names.outbox && Text.Ascending(gids)
      requires Typed(gateway.store, c.names) && cascadeAt <= clock.now
      modifies gateway`denials, gateway`store, clock
      ensures Extends(old(gateway.store), gateway.store) && Typed(gateway.store, c.names)
      ensures !out.AlreadyExists?
      ensures old(clock.now) <= clock.now && DraftsAfter(drafts, cascadeAt, clock.now)
      ensures out.Done? ==> gateway.store == Phase1(c, old(gateway.store), events, cascadeAt, drafts, gids)
      ensures out.Done? ==> newlyCommitted == NewlyCommitted(c, old(gateway.store), events, cascadeAt, drafts, gids)
      ensures out.Done? ==> out.value == Affected(c, events, cascadeAt, gids)
      ensures out.Done? ==> DraftsCover(c, events, cascadeAt, drafts, draft, gids)
      ensures c.names == Namespaced(ns) && WillPass(leaseId, old(clock.now), clock.now) ==> out.Done?
    {
      hide *;
      var affected: seq<AffectedGrant> := [];
      newlyCommitted := 0;
      drafts := map[];
      PhaseSteps(c, gateway.store, events, cascadeAt, drafts, gids, 0);
      NoDrafts(c, events, cascadeAt, draft, clock.now);
      ExtendsReflexive(gateway.store);
      assert gids[..0] == [];
      for i := 0 to |gids|
        invariant Typed(gateway.store, c.names) && Extends(old(gateway.store), gateway.store)
        invariant old(clock.now) <= clock.now && DraftsAfter(drafts, cascadeAt, clock.now)
        invariant gateway.store == Phase1(c, old(gateway.store), events, cascadeAt, drafts, gids[..i])
        invariant newlyCommitted == NewlyCommitted(c, old(gateway.store), events, cascadeAt, drafts, gids[..i])
        invariant affected == Affected(c, events, cascadeAt, gids[..i])
        invariant DraftsCover(c, events, cascadeAt, drafts, draft, gids[..i])
      {
        var gid := gids[i];
        var st := Resolve(gid, None, events);
        NotInFront(gids, i);
        assert gids[..i + 1] == gids[..i] + [gid];
        if st.status == Active && st.activeScope.Some? && st.counterpartyId.Some?
           && Contains(c.order, st.activeScope.value.useType, c.useType)
           && !ScopeWindowHasClosed(st.activeScope.value, cascadeAt)
        {
          var held := st.activeScope.value.useType;
          affected := affected
            + [AffectedGrant(gid, st.counterpartyId.value, st.activeScope.value, Text.Sorted(Reach(c.order, held)))];
          ghost var before, t0, draftsBefore := gateway.store, clock.now, drafts;
          var committed: Outcome<bool>;
          ghost var d: Draft;
          committed, d := TerminateGrant(c, st, leaseId, clock, draft(gid));
          ExtendsTransitive(old(gateway.store), before, gateway.store);
          DraftsGrow(c, events, cascadeAt, drafts, draft, gids[..i], t0, clock.now, gid, d);
          LaterDraftsDoNotMatter(c, old(gateway.store), events, cascadeAt, draftsBefore, gid, d, gids[..i]);
          drafts := drafts[gid := d];
          PassesWithin(leaseId, old(clock.now), clock.now, t0, clock.now);
          if !committed.Done? {
            out := if committed.Denied? then Denied(committed.denial) else Crashed;
            return;
          }
          if committed.value {
            newlyCommitted := newlyCommitted + 1;
          }
          SelectedStep(c, before, events, cascadeAt, drafts, gid, st);
          PhaseSteps(c, old(gateway.store), events, cascadeAt, drafts, gids, i);
        } else {
          SkippedStep(c, gateway.store, events, cascadeAt, drafts, gid, st);
          PhaseSteps(c, old(gateway.store), events, cascadeAt, drafts, gids, i);
          DraftsSkip(c, events, cascadeAt, drafts, draft, gids[..i], gid);
        }
      }
      PhaseSteps(c, old(gateway.store), events, cascadeAt, drafts, gids, |gids|);
      out := Done(affected);
    }

    /**
     * Revokes a use of a work. The draft of each notice and the freshly drawn operation id are arbitrary inputs.
     * The ghost results expose the instants the call stamped.
     */
    method ExecuteRevocationCascade(workId: string, useType: string, requested: Option<string>, newId: string,
                                    leaseId: Option<string>, clock: Clock, draft: string -> string)
      returns (out: Outcome<CascadeResult>, ghost at: Instant, ghost drafts: map<string, Draft>)
      requires PartialOrder(order)
      requires Typed(gateway.store, Namespaced(ns))
      modifies gateway`denials, gateway`store, clock
      ensures Extends(old(gateway.store), gateway.store) && Typed(gateway.store, Namespaced(ns))
      ensures !out.AlreadyExists? && old(clock.now) <= clock.now
      ensures out.Done? ==> old(clock.now) < at <= clock.now && DraftsAfter(drafts, at, clock.now)
      ensures out.Done? ==>
        var c := ConfigFor(workId, useType, OperationOr(requested, newId));
        Completed(c, old(gateway.store), gateway.store, at, drafts, out.value)
          && Drafted(c, old(gateway.store), at, drafts, draft)
      ensures WillPass(leaseId, old(clock.now), clock.now) ==> out.Done?
    {
      hide *;
      var operationId := OperationOr(requested, newId);
      var c := ConfigFor(workId, useType, operationId);
      ConfigFields(workId, useType, operationId);
      var derivedScopes := Text.Sorted(Reach(order, useType));
      at, drafts := 0, map[];
      ExtendsReflexive(gateway.store);
      ReadWillPass(c.names.grants, map["work_id" := workId]);
      PassingIsCleared();
      var read := gateway.ReadCollection(sa, role, c.names.grants, map["work_id" := workId], map[], None);
      if !read.Done? {
        out := if read.Denied? then Denied(read.denial) else Crashed;
        return;
      }
      QueriedAreEvents(c, gateway.store);
      var events := EventsOf(read.value);
      var derivation := UseTypeDerivationChain(order, useType);
      var cascadeAt := clock.Read();
      at := cascadeAt;
      var gids := Text.Sorted(GrantIds(events));
      var affected, newlyCommitted;
      affected, newlyCommitted, drafts := TerminateAffected(c, events, cascadeAt, gids, leaseId, clock, draft);
      PassesWithin(leaseId, old(clock.now), clock.now, cascadeAt, clock.now);
      if !affected.Done? {
        out := if affected.Denied? then Denied(affected.denial) else Crashed;
        return;
      }
      ghost var mid, t := gateway.store, clock.now;
      var delivered := DeliverPendingNotices(c, leaseId, clock);
      PassesWithin(leaseId, old(clock.now), clock.now, t, clock.now);
      ExtendsTransitive(old(gateway.store), mid, gateway.store);
      if !delivered.Done? {
        out := if delivered.Denied? then Denied(delivered.denial) else Crashed;
        return;
      }
      DraftsLater(drafts, at, t, clock.now);
      var receipts := delivered.value;
      var result := CascadeResult(operationId, useType, derivedScopes, Text.Sorted(TerminatedUnion(affected.value)),
                                  derivation, affected.value, receipts, Excess(|receipts|, newlyCommitted));
      Assemble(c, old(gateway.store), mid, gateway.store, at, drafts, draft, newlyCommitted, result);
      out := Done(result);
    }

    lemma ConfigFields(workId: string, useType: string, operationId: string)
      ensures var c := ConfigFor(workId, useType, operationId);
        && c.names == Namespaced(ns) && c.names.grants != c.names.outbox && c.order == order
        && c.workId == workId && c.useType == useType && c.operationId == operationId
    {
    }
  }

  lemma QueriedAreEvents(c: Config, s: Store)
    requires Typed(s, c.names)
    ensures var docs := Query(s, c.names.grants, map["work_id" := c.workId]);
      (forall d :: d in docs ==> d.GrantDoc?) && EventsOf(docs) == Snapshot(c, s)
  {
  }

  lemma QueriedAreRows(c: Config, s: Store)
    requires Typed(s, c.names)
    ensures var docs := Query(s, c.names.outbox, map["operation_id" := c.operationId]);
      (forall d :: d in docs ==> d.OutboxDoc?) && RowsOf(docs) == Owed(c, s)
  {
  }

  lemma Assemble(c: Config, before: Store, mid: Store, after: Store, at: Instant, drafts: map<string, Draft>,
                 draft: string -> string, newlyCommitted: nat, r: CascadeResult)
    requires Typed(before, c.names) && Typed(mid, c.names)
    requires var snapshot := Snapshot(c, before);
      var gids := Text.Sorted(GrantIds(snapshot));
      && mid == Phase1(c, before, snapshot, at, drafts, gids)
      && newlyCommitted == NewlyCommitted(c, before, snapshot, at, drafts, gids)
      && r.affected == Affected(c, snapshot, at, gids)
      && DraftsCover(c, snapshot, at, drafts, draft, gids)
    requires var rows := SortBy(RowLeq, Owed(c, mid));
      after == Phase2(c, mid, rows) && r.receipts == Receipts(c, rows)
    requires r.operationId == c.operationId && r.revokedUseType == c.useType
    requires r.derivedScopes == Text.Sorted(Reach(c.order, c.useType)) && Derivation(c.order, c.useType, r.derivation)
    requires r.terminatedScopes == Text.Sorted(TerminatedUnion(r.affected))
    requires r.replayed == Excess(|r.receipts|, newlyCommitted)
    ensures Completed(c, before, after, at, drafts, r) && Drafted(c, before, at, drafts, draft)
  {
    hide Typed, Snapshot, Phase1, Phase2, NewlyCommitted, Affected, Derivation, Reach, GrantIds, Owed, Text.Ascending,
         DraftsCover, Excess;
  }

  /** Exactly the selected grants among `gids` were drafted for, with the given drafter. */
  ghost predicate DraftsCover(c: Config, snapshot: seq<GrantEvent>, at: Instant, drafts: map<string, Draft>,
                              draft: string -> string, gids: seq<string>) {
    && (forall g :: g in drafts ==> g in gids && drafts[g].text == draft(g))
    && (forall g :: g in gids && Selected(c, Resolved(g, None, snapshot), at) ==> g in drafts)
  }

  ghost predicate Drafted(c: Config, before: Store, at: Instant, drafts: map<string, Draft>, draft: string -> string)
    requires Typed(before, c.names)
  {
    DraftsCover(c, Snapshot(c, before), at, drafts, draft, Text.Sorted(GrantIds(Snapshot(c, before))))
  }

  lemma NoDrafts(c: Config, snapshot: seq<GrantEvent>, at: Instant, draft: string -> string, t: Instant)
    ensures DraftsCover(c, snapshot, at, map[], draft, []) && DraftsAfter(map[], at, t)
  {
  }

  lemma DraftsLater(drafts: map<string, Draft>, at: Instant, t0: Instant, t1: Instant)
    requires DraftsAfter(drafts, at, t0) && t0 <= t1
    ensures DraftsAfter(drafts, at, t1)
  {
  }

  lemma DraftsGrow(c: Config, snapshot: seq<GrantEvent>, at: Instant, drafts: map<string, Draft>,
                   draft: string -> string, gids: seq<string>, t0: Instant, t1: Instant, gid: string, d: Draft)
    requires DraftsCover(c, snapshot, at, drafts, draft, gids) && DraftsAfter(drafts, at, t0)
    requires at <= t0 < d.now <= t1 && d.text == draft(gid)
    ensures DraftsCover(c, snapshot, at, drafts[gid := d], draft, gids + [gid]) && DraftsAfter(drafts[gid := d], at, t1)
  {
    hide Selected, Resolved;
  }

  lemma DraftsSkip(c: Config, snapshot: seq<GrantEvent>, at: Instant, drafts: map<string, Draft>,
                   draft: string -> string, gids: seq<string>, gid: string)
    requires DraftsCover(c, snapshot, at, drafts, draft, gids) && !Selected(c, Resolved(gid, None, snapshot), at)
    ensures DraftsCover(c, snapshot, at, drafts, draft, gids + [gid])
  {
    hide Selected, Resolved;
  }

  lemma SelectedStep(c: Config, s: Store, snapshot: seq<GrantEvent>, at: Instant, drafts: map<string, Draft>,
                     gid: string, st: GrantState)
    requires st == Resolved(gid, None, snapshot) && gid in drafts
    requires st.status == Active && st.activeScope.Some? && st.counterpartyId.Some?
    requires Contains(c.order, st.activeScope.value.useType, c.useType)
    requires !ScopeWindowHasClosed(st.activeScope.value, at)
    ensures TerminateOne(c, s, snapshot, at, drafts, gid) == CreateAll(s, Pair(c, st, drafts[gid]))
    ensures NewOne(c, s, snapshot, at, drafts, gid) == if AllFree(s, Pair(c, st, drafts[gid])) then 1 else 0
    ensures AffectedOne(c, snapshot, at, gid)
         == [AffectedGrant(gid, st.counterpartyId.value, st.activeScope.value,
                           Text.Sorted(Reach(c.order, st.activeScope.value.useType)))]
  {
    var pair := Pair(c, st, drafts[gid]);
    assert pair[0] in pair && pair[1] in pair;
  }

  lemma SkippedStep(c: Config, s: Store, snapshot: seq<GrantEvent>, at: Instant, drafts: map<string, Draft>,
                    gid: string, st: GrantState)
    requires st == Resolved(gid, None, snapshot)
    requires !(st.status == Active && st.activeScope.Some? && st.counterpartyId.Some?
      && Contains(c.order, st.activeScope.value.useType, c.useType) && !ScopeWindowHasClosed(st.activeScope.value, at))
    ensures !Selected(c, Resolved(gid, None, snapshot), at)
    ensures TerminateOne(c, s, snapshot, at, drafts, gid) == s
    ensures NewOne(c, s, snapshot, at, drafts, gid) == 0 && AffectedOne(c, snapshot, at, gid) == []
  {
  }

  lemma ExtendsReflexive(s: Store)
    ensures Extends(s, s)
  {
  }
}
