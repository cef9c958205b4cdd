/**
 * The cascade as a step machine: any number of attempts of any number of operations, interleaved with each other and
 * with ordinary logging, each free to stop for good between any two steps. Exactly-once effects over at-least-once
 * execution.
 */
module CascadeMachine {
  import opened Scopes
  import opened Resolver
  import opened Evaluator
  import opened Effects
  import opened Gateway
  import opened Cascade
  import opened CascadeTheorems
  import opened Sorting
  import opened Lattice
  import Text

  datatype Stage = Begun | SnapshotRead | Terminating | Delivering | Finished

  /** One execution of the cascade. An attempt that crashed is one that is never scheduled again. */
  datatype Attempt = Attempt(
    c: Config,
    stage: Stage,
    snapshot: seq<GrantEvent>,
    at: Instant,
    next: nat,
    draft: Option<Draft>,
    rows: seq<OutboxRow>,
    sent: nat)

  /** What all attempts of one deployment share. */
  datatype Deployment = Deployment(h: Hash, names: Names, order: Order)

  /** Instants are whatever a worker's clock says: nothing below depends on them. */
  datatype World = World(store: Store, attempts: seq<Attempt>)

  datatype Step =
    | Start(c: Config)
    | ReadSnapshot(i: nat)
    | TakeClock(i: nat, at: Instant)
    | SkipGrant(i: nat)
    | DraftNotice(i: nat, draft: Draft)
    | CommitPair(i: nat)
    | ReadOutbox(i: nat)
    | Deliver(i: nat)
    | Finish(i: nat)
    | LogEvent(e: GrantEvent)
    | WriteElsewhere(w: Write)

  /** The grants an attempt visits, in order. */
  function Gids(snapshot: seq<GrantEvent>): seq<string> {
    Text.Sorted(GrantIds(snapshot))
  }

  /** The attempt's snapshot and instant select the grant. */
  predicate Selects(a: Attempt, gid: string) {
    SelectsIn(a.c, a.snapshot, a.at, gid)
  }

  predicate SelectsIn(c: Config, snapshot: seq<GrantEvent>, at: Instant, gid: string) {
    Selected(c, Resolved(gid, None, snapshot), at)
  }

  /** An id no revocation effect can have. */
  ghost predicate Ordinary(h: Hash, id: string) {
    forall op, g, x :: x in {REVOKED_EVENT, OUTBOX, NOTICE} ==> id != EffectId(h, op, g, x)
  }

  predicate Attempting(w: World, i: nat, stage: Stage) {
    i < |w.attempts| && w.attempts[i].stage == stage
  }

  ghost predicate Enabled(d: Deployment, w: World, s: Step) {
    match s
    case Start(c) => c.h == d.h && c.names == d.names && c.order == d.order
    case ReadSnapshot(i) => Attempting(w, i, Begun) && Typed(w.store, d.names)
    case TakeClock(i, _) => Attempting(w, i, SnapshotRead)
    case SkipGrant(i) => Attempting(w, i, Terminating) && var a := w.attempts[i];
      a.next < |Gids(a.snapshot)| && a.draft.None? && !Selects(a, Gids(a.snapshot)[a.next])
    case DraftNotice(i, _) => Attempting(w, i, Terminating) && var a := w.attempts[i];
      a.next < |Gids(a.snapshot)| && a.draft.None? && Selects(a, Gids(a.snapshot)[a.next])
    case CommitPair(i) => Attempting(w, i, Terminating) && var a := w.attempts[i];
      a.next < |Gids(a.snapshot)| && a.draft.Some? && Selects(a, Gids(a.snapshot)[a.next])
    case ReadOutbox(i) => Attempting(w, i, Terminating) && Typed(w.store, d.names)
      && w.attempts[i].next == |Gids(w.attempts[i].snapshot)|
    case Deliver(i) => Attempting(w, i, Delivering) && w.attempts[i].sent < |w.attempts[i].rows|
    case Finish(i) => Attempting(w, i, Delivering) && w.attempts[i].sent == |w.attempts[i].rows|
    case LogEvent(e) => Ordinary(d.h, e.eventId)
    case WriteElsewhere(x) => x.collection !in {d.names.grants, d.names.outbox, d.names.notices}
  }

  /** What a step does to the store. */
  ghost function NextStore(d: Deployment, w: World, s: Step): Store
    requires Enabled(d, w, s)
  {
    match s
    case CommitPair(i) =>
      var a := w.attempts[i];
      CreateAll(w.store, Pair(a.c, Resolved(Gids(a.snapshot)[a.next], None, a.snapshot), a.draft.value))
    case Deliver(i) => CreateAll(w.store, [NoticeWrite(w.attempts[i].c, w.attempts[i].rows[w.attempts[i].sent])])
    case LogEvent(e) => CreateAll(w.store, [Write(d.names.grants, e.eventId, GrantDoc(e))])
    case WriteElsewhere(x) => CreateAll(w.store, [x])
    case _ => w.store
  }

  /** What a step does to the attempt taking it. */
  ghost function NextAttempt(d: Deployment, w: World, s: Step, a: Attempt): Attempt
    requires Enabled(d, w, s) && a.c.names == d.names
  {
    match s
    case ReadSnapshot(_) => a.(stage := SnapshotRead, snapshot := Snapshot(a.c, w.store))
    case TakeClock(_, at) => a.(stage := Terminating, at := at)
    case SkipGrant(_) => a.(next := a.next + 1)
    case DraftNotice(_, draft) => a.(draft := Some(draft))
    case CommitPair(_) => a.(next := a.next + 1, draft := None)
    case ReadOutbox(_) => a.(stage := Delivering, rows := SortBy(RowLeq, Owed(a.c, w.store)), sent := 0)
    case Deliver(_) => a.(sent := a.sent + 1)
    case Finish(_) => a.(stage := Finished)
    case _ => a
  }

  function Actor(s: Step): Option<nat> {
    match s
    case Start(_) => None
    case LogEvent(_) => None
    case WriteElsewhere(_) => None
    case ReadSnapshot(i) => Some(i)
    case TakeClock(i, _) => Some(i)
    case SkipGrant(i) => Some(i)
    case DraftNotice(i, _) => Some(i)
    case CommitPair(i) => Some(i)
    case ReadOutbox(i) => Some(i)
    case Deliver(i) => Some(i)
    case Finish(i) => Some(i)
  }

  ghost predicate Shared(d: Deployment, w: World) {
    forall a :: a in w.attempts ==> a.c.h == d.h && a.c.names == d.names && a.c.order == d.order
  }

  ghost function Next(d: Deployment, w: World, s: Step): World
    requires Enabled(d, w, s) && Shared(d, w)
  {
    var attempts :=
      match Actor(s)
      case Some(i) => (assert w.attempts[i] in w.attempts; w.attempts[i := NextAttempt(d, w, s, w.attempts[i])])
      case None => if s.Start? then w.attempts + [Attempt(s.c, Begun, [], 0, 0, None, [], 0)] else w.attempts;
    World(NextStore(d, w, s), attempts)
  }

  // ------------------------------------------------------------------
  // The store invariant
  // ------------------------------------------------------------------

  function EventEntry(e: GrantEvent): Entry { Entry(e.eventId, GrantDoc(e)) }
  function RowEntry(r: OutboxRow): Entry { Entry(r.outboxId, OutboxDoc(r)) }
  function NoticeEntry(h: Hash, r: OutboxRow): Entry {
    Entry(EffectId(h, r.operationId, r.grantId, NOTICE), NoticeDoc(NoticeFor(r)))
  }

  /** The event and the row are the two halves of one fact. */
  ghost predicate Paired(h: Hash, e: GrantEvent, r: OutboxRow) {
    && e.eventId == EffectId(h, r.operationId, r.grantId, REVOKED_EVENT)
    && r.outboxId == EffectId(h, r.operationId, r.grantId, OUTBOX)
    && e.kind == Revoked && e.grantId == r.grantId && e.workId == r.workId && e.counterpartyId == r.counterpartyId
    && e.issuedAt == r.revokedAt
  }

  ghost predicate HasEvent(d: Deployment, s: Store, r: OutboxRow) {
    exists e :: EventEntry(e) in Written(s, d.names.grants) && Paired(d.h, e, r)
  }

  ghost predicate HasRow(d: Deployment, s: Store, e: GrantEvent) {
    exists r :: RowEntry(r) in Written(s, d.names.outbox) && Paired(d.h, e, r)
  }

  ghost predicate BackedByRow(d: Deployment, s: Store, b: Entry) {
    exists r :: RowEntry(r) in Written(s, d.names.outbox) && b == NoticeEntry(d.h, r)
  }

  ghost predicate GrantEntryOk(d: Deployment, s: Store, b: Entry) {
    && b.doc.GrantDoc? && b.id == b.doc.event.eventId
    && (Ordinary(d.h, b.id) || HasRow(d, s, b.doc.event))
  }

  ghost predicate RowEntryOk(d: Deployment, s: Store, b: Entry) {
    b.doc.OutboxDoc? && b == RowEntry(b.doc.row) && HasEvent(d, s, b.doc.row)
  }

  /** Rows and revoked events come in pairs, notices only behind their row and with its text, every key once. */
  ghost predicate StoreOk(d: Deployment, s: Store) {
    && UniqueKeys(Written(s, d.names.grants)) && UniqueKeys(Written(s, d.names.outbox))
    && UniqueKeys(Written(s, d.names.notices))
    && (forall b :: b in Written(s, d.names.grants) ==> GrantEntryOk(d, s, b))
    && (forall b :: b in Written(s, d.names.outbox) ==> RowEntryOk(d, s, b))
    && (forall b :: b in Written(s, d.names.notices) ==> BackedByRow(d, s, b))
    && Served(s, d.names.outbox) == [] && Served(s, d.names.notices) == []
    && (forall x :: x in Served(s, d.names.grants) ==> x.GrantDoc?)
  }

  ghost predicate Distinct(n: Names) {
    n.grants != n.outbox && n.grants != n.notices && n.outbox != n.notices
  }

  lemma UniqueAppend(b: Bucket, e: Entry)
    requires UniqueKeys(b) && !HasId(b, e.id)
    ensures UniqueKeys(b + [e])
  {
  }

  lemma OkPersists(d: Deployment, s: Store, t: Store, b: Entry)
    requires Extends(s, t)
    ensures GrantEntryOk(d, s, b) ==> GrantEntryOk(d, t, b)
    ensures RowEntryOk(d, s, b) ==> RowEntryOk(d, t, b)
    ensures BackedByRow(d, s, b) ==> BackedByRow(d, t, b)
  {
    hide Paired, Ordinary, Written, NoticeEntry, RowEntry, EventEntry;
    var gs, gt := Written(s, d.names.grants), Written(t, d.names.grants);
    var os, ot := Written(s, d.names.outbox), Written(t, d.names.outbox);
    assert gs <= gt && os <= ot;
    assert forall x :: x in gs ==> x in gt;
    assert forall x :: x in os ==> x in ot;
  }

  /** Adding entries that are themselves in order keeps the store in order. */
  lemma StoreOkGrows(d: Deployment, s: Store, t: Store)
    requires StoreOk(d, s) && Extends(s, t)
    requires UniqueKeys(Written(t, d.names.grants)) && UniqueKeys(Written(t, d.names.outbox))
    requires UniqueKeys(Written(t, d.names.notices))
    requires forall b :: b in Written(t, d.names.grants) && b !in Written(s, d.names.grants) ==> GrantEntryOk(d, t, b)
    requires forall b :: b in Written(t, d.names.outbox) && b !in Written(s, d.names.outbox) ==> RowEntryOk(d, t, b)
    requires forall b :: b in Written(t, d.names.notices) && b !in Written(s, d.names.notices) ==> BackedByRow(d, t, b)
    ensures StoreOk(d, t)
  {
    hide GrantEntryOk, RowEntryOk, BackedByRow, UniqueKeys, Written;
    forall b ensures GrantEntryOk(d, s, b) ==> GrantEntryOk(d, t, b)
             ensures RowEntryOk(d, s, b) ==> RowEntryOk(d, t, b)
             ensures BackedByRow(d, s, b) ==> BackedByRow(d, t, b)
    {
      OkPersists(d, s, t, b);
    }
  }

  lemma CommitKeepsStore(d: Deployment, s: Store, c: Config, st: GrantState, x: Draft)
    requires StoreOk(d, s) && Distinct(d.names) && c.h == d.h && c.names == d.names
    requires st.activeScope.Some? && st.counterpartyId.Some?
    ensures StoreOk(d, CreateAll(s, Pair(c, st, x)))
  {
    hide StoreOk, EffectId, CreateAll, Grew, Pair;
    PairGrows(c, s, st, x);
    CreateAllCases(s, Pair(c, st, x));
    if Clear(c, s, st.grantId) {
      assert Paired(d.h, RevokedEventFor(c, st, x), RowFor(c, st, x));
      PairKeepsStore(d, s, CreateAll(s, Pair(c, st, x)), RevokedEventFor(c, st, x), RowFor(c, st, x));
    }
  }

  lemma PairKeepsStore(d: Deployment, s: Store, t: Store, e: GrantEvent, r: OutboxRow)
    requires StoreOk(d, s) && Distinct(d.names) && Paired(d.h, e, r) && Extends(s, t) && Grew(d.names, s, t, [e], [r])
    requires !HasId(Written(s, d.names.grants), e.eventId) && !HasId(Written(s, d.names.outbox), r.outboxId)
    ensures StoreOk(d, t)
  {
    hide StoreOk, Ordinary, UniqueKeys, Paired, HasId, Extends;
    EntriesOfOne(e, r);
    StoreOkKeys(d, s);
    UniqueAppend(Written(s, d.names.grants), EventEntry(e));
    UniqueAppend(Written(s, d.names.outbox), RowEntry(r));
    assert RowEntry(r) in Written(t, d.names.outbox) && EventEntry(e) in Written(t, d.names.grants);
    assert HasRow(d, t, e) && HasEvent(d, t, r);
    StoreOkGrows(d, s, t);
  }

  lemma EntriesOfOne(e: GrantEvent, r: OutboxRow)
    ensures EventEntries([e]) == [EventEntry(e)] && RowEntries([r]) == [RowEntry(r)]
  {
  }

  lemma StoreOkKeys(d: Deployment, s: Store)
    requires StoreOk(d, s)
    ensures UniqueKeys(Written(s, d.names.grants)) && UniqueKeys(Written(s, d.names.outbox))
    ensures UniqueKeys(Written(s, d.names.notices))
    ensures Typed(s, d.names)
  {
    hide UniqueKeys;
    forall x | x in DocsOf(Written(s, d.names.grants)) ensures x.GrantDoc? {
      var i :| 0 <= i < |Written(s, d.names.grants)| && Written(s, d.names.grants)[i].doc == x;
      assert Written(s, d.names.grants)[i] in Written(s, d.names.grants);
    }
    forall x | x in DocsOf(Written(s, d.names.outbox)) ensures x.OutboxDoc? {
      var i :| 0 <= i < |Written(s, d.names.outbox)| && Written(s, d.names.outbox)[i].doc == x;
      assert Written(s, d.names.outbox)[i] in Written(s, d.names.outbox);
    }
  }

  /** A single create keeps the store in order when its entry is in order. */
  lemma CreateKeepsStore(d: Deployment, s: Store, w: Write)
    requires StoreOk(d, s) && Distinct(d.names)
    requires w.collection != d.names.outbox
    requires w.collection == d.names.grants ==> w.doc.GrantDoc? && w.id == w.doc.event.eventId && Ordinary(d.h, w.id)
    requires w.collection == d.names.notices ==> BackedByRow(d, s, Entry(w.id, w.doc))
    ensures StoreOk(d, CreateAll(s, [w]))
  {
    hide StoreOk, CreateAll, UniqueKeys, Ordinary, BackedByRow;
    var t := CreateAll(s, [w]);
    OneCreate(s, w);
    StoreOkKeys(d, s);
    if !Taken(s, w) {
      var e := Entry(w.id, w.doc);
      assert UniqueKeys(Written(s, w.collection)) ==> UniqueKeys(Written(s, w.collection) + [e]) by {
        if UniqueKeys(Written(s, w.collection)) {
          UniqueAppend(Written(s, w.collection), e);
        }
      }
      OkPersists(d, s, t, e);
      StoreOkGrows(d, s, t);
    }
  }

  // ------------------------------------------------------------------
  // The attempts
  // ------------------------------------------------------------------

  /** The pair of ids the attempt's operation derives for a grant is in the store. */
  ghost predicate PairPresent(d: Deployment, s: Store, op: string, gid: string) {
    && HasId(Written(s, d.names.grants), EffectId(d.h, op, gid, REVOKED_EVENT))
    && HasId(Written(s, d.names.outbox), EffectId(d.h, op, gid, OUTBOX))
  }

  ghost predicate NoticePresent(d: Deployment, s: Store, op: string, gid: string) {
    HasId(Written(s, d.names.notices), EffectId(d.h, op, gid, NOTICE))
  }

  /** The row is stored, belongs to the operation. */
  ghost predicate RowKnown(d: Deployment, s: Store, op: string, r: OutboxRow) {
    RowEntry(r) in Written(s, d.names.outbox) && r.operationId == op
  }

  /** Every selected grant passed has its pair. */
  ghost predicate PassedOk(d: Deployment, s: Store, c: Config, snapshot: seq<GrantEvent>, at: Instant, next: nat) {
    && next <= |Gids(snapshot)|
    && forall k :: 0 <= k < next && SelectsIn(c, snapshot, at, Gids(snapshot)[k]) ==>
      PairPresent(d, s, c.operationId, Gids(snapshot)[k])
  }

  /** Every row read is a row of the operation. */
  ghost predicate RowsOk(d: Deployment, s: Store, op: string, rows: seq<OutboxRow>) {
    forall r :: r in rows ==> RowKnown(d, s, op, r)
  }

  /** Every row passed has its notice. */
  ghost predicate SentOk(d: Deployment, s: Store, op: string, rows: seq<OutboxRow>, sent: nat) {
    sent <= |rows| && forall k :: 0 <= k < sent ==> NoticePresent(d, s, op, rows[k].grantId)
  }

  predicate StageOk(a: Attempt) {
    && (a.stage == Begun || a.stage == SnapshotRead ==> a.next == 0)
    && (a.stage == Delivering || a.stage == Finished ==> a.next == |Gids(a.snapshot)|)
    && (a.stage == Begun || a.stage == SnapshotRead || a.stage == Terminating ==> a.rows == [] && a.sent == 0)
    && (a.stage == Finished ==> a.sent == |a.rows|)
  }

  ghost predicate AttemptOk(d: Deployment, s: Store, a: Attempt) {
    && a.c.h == d.h && a.c.names == d.names && a.c.order == d.order
    && PassedOk(d, s, a.c, a.snapshot, a.at, a.next)
    && RowsOk(d, s, a.c.operationId, a.rows)
    && SentOk(d, s, a.c.operationId, a.rows, a.sent)
    && StageOk(a)
  }

  ghost predicate Inv(d: Deployment, w: World) {
    && StoreOk(d, w.store) && Distinct(d.names)
    && forall a :: a in w.attempts ==> AttemptOk(d, w.store, a)
  }

  lemma PresencePersists(d: Deployment, s: Store, t: Store, op: string, gid: string)
    requires Extends(s, t)
    ensures PairPresent(d, s, op, gid) ==> PairPresent(d, t, op, gid)
    ensures NoticePresent(d, s, op, gid) ==> NoticePresent(d, t, op, gid)
  {
    hide EffectId, Written;
    IdPersists(Written(s, d.names.grants), Written(t, d.names.grants), EffectId(d.h, op, gid, REVOKED_EVENT));
    IdPersists(Written(s, d.names.outbox), Written(t, d.names.outbox), EffectId(d.h, op, gid, OUTBOX));
    IdPersists(Written(s, d.names.notices), Written(t, d.names.notices), EffectId(d.h, op, gid, NOTICE));
  }

  lemma IdPersists(b: Bucket, longer: Bucket, id: string)
    requires b <= longer
    ensures HasId(b, id) ==> HasId(longer, id)
  {
    if HasId(b, id) {
      var i :| 0 <= i < |b| && b[i].id == id;
      assert longer[i] == b[i];
    }
  }

  /** Other attempts lose nothing when the store grows. */
  lemma AttemptOkPersists(d: Deployment, s: Store, t: Store, a: Attempt)
    requires AttemptOk(d, s, a) && Extends(s, t)
    ensures AttemptOk(d, t, a)
  {
    hide PairPresent, NoticePresent, SelectsIn, Gids, Written, StageOk, RowsOk;
    forall gid ensures PairPresent(d, s, a.c.operationId, gid) ==> PairPresent(d, t, a.c.operationId, gid)
               ensures NoticePresent(d, s, a.c.operationId, gid) ==> NoticePresent(d, t, a.c.operationId, gid)
    {
      PresencePersists(d, s, t, a.c.operationId, gid);
    }
    RowsPersist(d, s, t, a.c.operationId, a.rows);
  }

  lemma RowsPersist(d: Deployment, s: Store, t: Store, op: string, rows: seq<OutboxRow>)
    requires RowsOk(d, s, op, rows) && Extends(s, t)
    ensures RowsOk(d, t, op, rows)
  {
    hide Written;
    assert Written(s, d.names.outbox) <= Written(t, d.names.outbox);
    assert forall x :: x in Written(s, d.names.outbox) ==> x in Written(t, d.names.outbox);
  }

  lemma StoredRow(b: Bucket, r: OutboxRow)
    requires forall x :: x in b ==> x.doc.OutboxDoc? && x == RowEntry(x.doc.row)
    ensures OutboxDoc(r) in DocsOf(b) <==> RowEntry(r) in b
  {
    if OutboxDoc(r) in DocsOf(b) {
      var i :| 0 <= i < |b| && b[i].doc == OutboxDoc(r);
      assert b[i] in b && b[i] == RowEntry(r);
    }
    if RowEntry(r) in b {
      var i :| 0 <= i < |b| && b[i] == RowEntry(r);
      assert DocsOf(b)[i] == OutboxDoc(r);
    }
  }

  lemma RowReadIsKnown(d: Deployment, s: Store, c: Config, r: OutboxRow)
    requires StoreOk(d, s) && c.names == d.names && Typed(s, d.names)
    ensures r in Owed(c, s) <==> RowKnown(d, s, c.operationId, r)
  {
    hide GrantEntryOk, HasEvent, BackedByRow, UniqueKeys, Ordinary, Typed, Written, RowEntry;
    var filters := map["operation_id" := c.operationId];
    var b := Written(s, d.names.outbox);
    StoredRow(b, r);
    assert Served(s, d.names.outbox) + DocsOf(b) == DocsOf(b);
    assert Satisfies(OutboxDoc(r), filters) <==> r.operationId == c.operationId by { assert "operation_id" in filters; }
    RowsTyped(c, s);
    RowsOfMembers(Query(s, d.names.outbox, filters), r);
  }

  lemma RowsOfMembers(docs: seq<Doc>, r: OutboxRow)
    requires forall x :: x in docs ==> x.OutboxDoc?
    ensures r in RowsOf(docs) <==> OutboxDoc(r) in docs
  {
    var rows := RowsOf(docs);
    if OutboxDoc(r) in docs {
      var i :| 0 <= i < |docs| && docs[i] == OutboxDoc(r);
      assert rows[i] == r;
    }
    if r in rows {
      var i :| 0 <= i < |rows| && rows[i] == r;
      assert docs[i] in docs && docs[i] == OutboxDoc(r);
    }
  }

  /** The store after any step is in order, and only ever longer. */
  lemma StepKeepsStore(d: Deployment, w: World, s: Step)
    requires Inv(d, w) && Enabled(d, w, s)
    ensures StoreOk(d, NextStore(d, w, s)) && Extends(w.store, NextStore(d, w, s))
  {
    hide StoreOk, Ordinary, CreateAll, Extends, Resolved, NoticeWrite, Pair;
    ExtendsReflexive(w.store);
    match s {
      case CommitPair(i) =>
        var a := w.attempts[i];
        assert AttemptOk(d, w.store, a);
        var st := Resolved(Gids(a.snapshot)[a.next], None, a.snapshot);
        CommitKeepsStore(d, w.store, a.c, st, a.draft.value);
        CreateAllCases(w.store, Pair(a.c, st, a.draft.value));
      case Deliver(i) =>
        var a := w.attempts[i];
        assert AttemptOk(d, w.store, a);
        DeliveryIsBacked(d, w.store, a);
        CreateKeepsStore(d, w.store, NoticeWrite(a.c, a.rows[a.sent]));
        CreateAllCases(w.store, [NoticeWrite(a.c, a.rows[a.sent])]);
      case LogEvent(e) =>
        CreateKeepsStore(d, w.store, Write(d.names.grants, e.eventId, GrantDoc(e)));
        CreateAllCases(w.store, [Write(d.names.grants, e.eventId, GrantDoc(e))]);
      case WriteElsewhere(x) =>
        CreateKeepsStore(d, w.store, x);
        CreateAllCases(w.store, [x]);
      case _ =>
    }
  }

  lemma DeliveryIsBacked(d: Deployment, s: Store, a: Attempt)
    requires AttemptOk(d, s, a) && a.sent < |a.rows| && Distinct(d.names)
    ensures var x := NoticeWrite(a.c, a.rows[a.sent]);
      && x.collection == d.names.notices
      && BackedByRow(d, s, Entry(x.id, x.doc))
  {
    hide PairPresent, NoticePresent, Selects, Gids, Written, EffectId;
    var r := a.rows[a.sent];
    assert r in a.rows;
    assert RowKnown(d, s, a.c.operationId, r);
  }

  /** A revoked event is stored under an operation's id for a grant if and only if the owed row is. */
  lemma EventIffRow(d: Deployment, s: Store, op: string, gid: string)
    requires Injective(d.h) && StoreOk(d, s)
    ensures HasId(Written(s, d.names.grants), EffectId(d.h, op, gid, REVOKED_EVENT))
       <==> HasId(Written(s, d.names.outbox), EffectId(d.h, op, gid, OUTBOX))
  {
    hide StoreOk, EffectId, Injective;
    if HasId(Written(s, d.names.grants), EffectId(d.h, op, gid, REVOKED_EVENT)) {
      RowOfEvent(d, s, op, gid);
    }
    if HasId(Written(s, d.names.outbox), EffectId(d.h, op, gid, OUTBOX)) {
      EventOfRow(d, s, op, gid);
    }
  }

  lemma RowOfEvent(d: Deployment, s: Store, op: string, gid: string)
    requires Injective(d.h) && StoreOk(d, s) && HasId(Written(s, d.names.grants), EffectId(d.h, op, gid, REVOKED_EVENT))
    ensures HasId(Written(s, d.names.outbox), EffectId(d.h, op, gid, OUTBOX))
  {
    hide EffectId, UniqueKeys, BackedByRow, Written, Injective, RowEntryOk;
    var gs, os := Written(s, d.names.grants), Written(s, d.names.outbox);
    var i :| 0 <= i < |gs| && gs[i].id == EffectId(d.h, op, gid, REVOKED_EVENT);
    assert gs[i] in gs && GrantEntryOk(d, s, gs[i]);
    var r :| RowEntry(r) in os && Paired(d.h, gs[i].doc.event, r);
    SameOperation(d.h, op, gid, r.operationId, r.grantId);
    InHasId(os, RowEntry(r));
  }

  lemma EventOfRow(d: Deployment, s: Store, op: string, gid: string)
    requires Injective(d.h) && StoreOk(d, s) && HasId(Written(s, d.names.outbox), EffectId(d.h, op, gid, OUTBOX))
    ensures HasId(Written(s, d.names.grants), EffectId(d.h, op, gid, REVOKED_EVENT))
  {
    hide EffectId, UniqueKeys, BackedByRow, Written, Injective, GrantEntryOk;
    var gs, os := Written(s, d.names.grants), Written(s, d.names.outbox);
    var i :| 0 <= i < |os| && os[i].id == EffectId(d.h, op, gid, OUTBOX);
    assert os[i] in os && RowEntryOk(d, s, os[i]);
    var e :| EventEntry(e) in gs && Paired(d.h, e, os[i].doc.row);
    SameOperation(d.h, op, gid, os[i].doc.row.operationId, os[i].doc.row.grantId);
    InHasId(gs, EventEntry(e));
  }

  /** Two effect ids that agree on one effect agree on all. */
  lemma SameOperation(h: Hash, op1: string, g1: string, op2: string, g2: string)
    requires Injective(h)
    ensures EffectId(h, op1, g1, REVOKED_EVENT) == EffectId(h, op2, g2, REVOKED_EVENT)
       <==> EffectId(h, op1, g1, OUTBOX) == EffectId(h, op2, g2, OUTBOX)
    ensures EffectId(h, op1, g1, OUTBOX) == EffectId(h, op2, g2, OUTBOX) <==> Operation(op1, g1) == Operation(op2, g2)
    ensures EffectId(h, op1, g1, NOTICE) == EffectId(h, op2, g2, NOTICE) <==> Operation(op1, g1) == Operation(op2, g2)
  {
    EffectIdsAgree(h, op1, g1, REVOKED_EVENT, op2, g2, REVOKED_EVENT);
    EffectIdsAgree(h, op1, g1, OUTBOX, op2, g2, OUTBOX);
    EffectIdsAgree(h, op1, g1, NOTICE, op2, g2, NOTICE);
  }

  lemma CommitLeavesPair(d: Deployment, s: Store, c: Config, st: GrantState, x: Draft)
    requires Injective(d.h) && StoreOk(d, s) && Distinct(d.names) && c.h == d.h && c.names == d.names
    requires st.activeScope.Some? && st.counterpartyId.Some?
    ensures PairPresent(d, CreateAll(s, Pair(c, st, x)), c.operationId, st.grantId)
  {
    hide StoreOk, EffectId, Injective, CreateAll;
    PairGrows(c, s, st, x);
    EventIffRow(d, s, c.operationId, st.grantId);
    if Clear(c, s, st.grantId) {
      var e, r := RevokedEventFor(c, st, x), RowFor(c, st, x);
      EntriesOfOne(e, r);
      var t := CreateAll(s, Pair(c, st, x));
      assert EventEntry(e) in Written(t, d.names.grants) && RowEntry(r) in Written(t, d.names.outbox);
      InHasId(Written(t, d.names.grants), EventEntry(e));
      InHasId(Written(t, d.names.outbox), RowEntry(r));
    }
  }

  lemma PassOne(d: Deployment, t: Store, a: Attempt)
    requires AttemptOk(d, t, a) && a.stage == Terminating && a.next < |Gids(a.snapshot)|
    requires PairPresent(d, t, a.c.operationId, Gids(a.snapshot)[a.next])
    ensures AttemptOk(d, t, a.(next := a.next + 1, draft := None))
  {
    hide PairPresent, RowsOk, SentOk, Gids, SelectsIn;
  }

  lemma SendOne(d: Deployment, t: Store, a: Attempt)
    requires AttemptOk(d, t, a) && a.stage == Delivering && a.sent < |a.rows|
    requires NoticePresent(d, t, a.c.operationId, a.rows[a.sent].grantId)
    ensures AttemptOk(d, t, a.(sent := a.sent + 1))
  {
    hide NoticePresent, PassedOk, RowsOk, Gids;
  }

  lemma CommitActs(d: Deployment, s: Store, t: Store, a: Attempt)
    requires Injective(d.h) && StoreOk(d, s) && Distinct(d.names) && AttemptOk(d, t, a)
    requires a.stage == Terminating && a.next < |Gids(a.snapshot)| && a.draft.Some?
    requires Selects(a, Gids(a.snapshot)[a.next])
    requires t == CreateAll(s, Pair(a.c, Resolved(Gids(a.snapshot)[a.next], None, a.snapshot), a.draft.value))
    ensures AttemptOk(d, t, a.(next := a.next + 1, draft := None))
  {
    var gid := Gids(a.snapshot)[a.next];
    hide StoreOk, PassedOk, RowsOk, SentOk, StageOk, Gids, Injective, Resolved, Pair, CreateAll, PairPresent, Contains,
         ScopeWindowHasClosed;
    FoldNamesGrant(gid, None, a.snapshot);
    CommitLeavesPair(d, s, a.c, Resolved(gid, None, a.snapshot), a.draft.value);
    PassOne(d, t, a);
  }

  lemma ReadActs(d: Deployment, s: Store, a: Attempt)
    requires StoreOk(d, s) && Typed(s, d.names) && AttemptOk(d, s, a)
    requires a.stage == Terminating && a.next == |Gids(a.snapshot)|
    ensures AttemptOk(d, s, a.(stage := Delivering, rows := SortBy(RowLeq, Owed(a.c, s)), sent := 0))
  {
    hide PassedOk, StoreOk, RowKnown, Owed, Gids, Typed;
    var rows := SortBy(RowLeq, Owed(a.c, s));
    SameMembers(Owed(a.c, s), rows);
    forall r | r in rows ensures RowKnown(d, s, a.c.operationId, r) {
      RowReadIsKnown(d, s, a.c, r);
    }
  }

  lemma DeliverActs(d: Deployment, s: Store, t: Store, a: Attempt)
    requires Distinct(d.names) && AttemptOk(d, t, a) && a.stage == Delivering && a.sent < |a.rows|
    requires t == CreateAll(s, [NoticeWrite(a.c, a.rows[a.sent])])
    ensures AttemptOk(d, t, a.(sent := a.sent + 1))
  {
    hide PassedOk, RowsOk, SentOk, StageOk, CreateAll;
    OneCreate(s, NoticeWrite(a.c, a.rows[a.sent]));
    SendOne(d, t, a);
  }

  lemma QuietActs(d: Deployment, w: World, s: Step, i: nat)
    requires Enabled(d, w, s) && Actor(s) == Some(i) && !s.CommitPair? && !s.ReadOutbox? && !s.Deliver?
    requires AttemptOk(d, w.store, w.attempts[i])
    ensures AttemptOk(d, w.store, NextAttempt(d, w, s, w.attempts[i]))
  {
    hide PairPresent, NoticePresent, SelectsIn, RowsOk, Gids, Ordinary, Typed, Snapshot;
  }

  /** The acting attempt keeps its bookkeeping truthful. */
  lemma StepKeepsActor(d: Deployment, w: World, s: Step, i: nat)
    requires Injective(d.h) && Inv(d, w) && Enabled(d, w, s) && Actor(s) == Some(i)
    requires AttemptOk(d, w.store, w.attempts[i])
    ensures AttemptOk(d, NextStore(d, w, s), NextAttempt(d, w, s, w.attempts[i]))
  {
    hide AttemptOk, StoreOk, Injective, Typed, Ordinary, Gids, Selects, Pair, CreateAll, Resolved, NoticeWrite, Owed,
         Snapshot;
    var a := w.attempts[i];
    assert a.c.names == d.names by { AttemptShares(d, w.store, a); }
    StepKeepsStore(d, w, s);
    AttemptOkPersists(d, w.store, NextStore(d, w, s), a);
    match s {
      case CommitPair(_) => CommitActs(d, w.store, NextStore(d, w, s), a);
      case ReadOutbox(_) => ReadActs(d, w.store, a);
      case Deliver(_) => DeliverActs(d, w.store, NextStore(d, w, s), a);
      case ReadSnapshot(_) => QuietActs(d, w, s, i);
      case TakeClock(_, _) => QuietActs(d, w, s, i);
      case SkipGrant(_) => QuietActs(d, w, s, i);
      case DraftNotice(_, _) => QuietActs(d, w, s, i);
      case Finish(_) => QuietActs(d, w, s, i);
    }
  }

  lemma AttemptShares(d: Deployment, s: Store, a: Attempt)
    requires AttemptOk(d, s, a)
    ensures a.c.h == d.h && a.c.names == d.names && a.c.order == d.order
  {
  }

  lemma InvShares(d: Deployment, w: World)
    requires Inv(d, w)
    ensures Shared(d, w)
  {
  }

  /** Every step keeps the invariant. */
  lemma StepKeepsInv(d: Deployment, w: World, s: Step)
    requires Injective(d.h) && Inv(d, w) && Enabled(d, w, s)
    ensures Shared(d, w) && Inv(d, Next(d, w, s))
  {
    InvShares(d, w);
    hide AttemptOk, StoreOk, Injective, Enabled, Extends, NextStore, NextAttempt;
    StepKeepsStore(d, w, s);
    var t := Next(d, w, s);
    forall a | a in w.attempts ensures AttemptOk(d, t.store, a) {
      AttemptOkPersists(d, w.store, t.store, a);
    }
    match Actor(s) {
      case Some(i) =>
        ActorExists(d, w, s, i);
        assert w.attempts[i] in w.attempts;
        StepKeepsActor(d, w, s, i);
      case None =>
        if s.Start? {
          BegunOk(d, w, t.store, s.c);
        }
    }
  }

  lemma ActorExists(d: Deployment, w: World, s: Step, i: nat)
    requires Enabled(d, w, s) && Actor(s) == Some(i)
    ensures i < |w.attempts|
  {
  }

  lemma BegunOk(d: Deployment, w: World, t: Store, c: Config)
    requires Enabled(d, w, Start(c))
    ensures AttemptOk(d, t, Attempt(c, Begun, [], 0, 0, None, [], 0))
  {
  }

  // ------------------------------------------------------------------
  // Runs
  // ------------------------------------------------------------------

  /** Nothing revoked yet: no attempt, no row, no notice, and only ordinary grant events. */
  ghost predicate Initial(d: Deployment, w: World) {
    && w.attempts == [] && Distinct(d.names) && Injective(d.h)
    && Written(w.store, d.names.outbox) == [] && Written(w.store, d.names.notices) == []
    && Served(w.store, d.names.outbox) == [] && Served(w.store, d.names.notices) == []
    && (forall x :: x in Served(w.store, d.names.grants) ==> x.GrantDoc?)
    && UniqueKeys(Written(w.store, d.names.grants))
    && forall b :: b in Written(w.store, d.names.grants) ==>
      b.doc.GrantDoc? && b.id == b.doc.event.eventId && Ordinary(d.h, b.id)
  }

  ghost predicate Took(d: Deployment, w: World, s: Step, t: World) {
    Enabled(d, w, s) && Shared(d, w) && t == Next(d, w, s)
  }

  /** An interleaving: any steps, in any order, stopping anywhere. */
  ghost predicate IsRun(d: Deployment, run: seq<World>, steps: seq<Step>) {
    && |run| == |steps| + 1 && Initial(d, run[0])
    && forall k :: 0 < k < |run| ==> Took(d, run[k - 1], steps[k - 1], run[k])
  }

  lemma {:induction false} EveryStateIsInOrder(d: Deployment, run: seq<World>, steps: seq<Step>, k: nat)
    requires IsRun(d, run, steps) && k < |run|
    ensures Inv(d, run[k]) && Injective(d.h)
  {
    if k == 0 {
      InitialIsInOrder(d, run[0]);
    } else {
      EveryStateIsInOrder(d, run, steps, k - 1);
      hide Inv, Enabled, Injective, Initial, Next;
      assert Took(d, run[k - 1], steps[k - 1], run[k]);
      StepKeepsInv(d, run[k - 1], steps[k - 1]);
    }
  }

  lemma InitialIsInOrder(d: Deployment, w: World)
    requires Initial(d, w)
    ensures Inv(d, w) && Injective(d.h)
  {
    hide Ordinary, Injective;
  }

  lemma TookGrows(d: Deployment, w: World, s: Step, t: World)
    requires Inv(d, w) && Took(d, w, s, t)
    ensures Extends(w.store, t.store)
  {
    hide Inv, Enabled, Extends, NextStore;
    StepKeepsStore(d, w, s);
  }

  lemma {:induction false} StoreOnlyGrows(d: Deployment, run: seq<World>, steps: seq<Step>, j: nat, k: nat)
    requires IsRun(d, run, steps) && j <= k < |run|
    ensures Extends(run[j].store, run[k].store)
    decreases k
  {
    hide Took, Initial, Inv, Extends;
    if j == k {
      ExtendsReflexive(run[j].store);
    } else {
      StoreOnlyGrows(d, run, steps, j, k - 1);
      EveryStateIsInOrder(d, run, steps, k - 1);
      assert Took(d, run[k - 1], steps[k - 1], run[k]);
      TookGrows(d, run[k - 1], steps[k - 1], run[k]);
      ExtendsTransitive(run[j].store, run[k - 1].store, run[k].store);
    }
  }

  // ------------------------------------------------------------------
  // Exactly once
  // ------------------------------------------------------------------

  /** At most one entry of the bucket has the id. */
  ghost predicate AtMostOne(b: Bucket, id: string) {
    forall i, j :: 0 <= i < |b| && 0 <= j < |b| && b[i].id == id && b[j].id == id ==> i == j
  }

  /** At most one row is owed for the grant under the operation, whatever its id. */
  ghost predicate OneRow(b: Bucket, op: string, gid: string) {
    forall i, j :: 0 <= i < |b| && 0 <= j < |b| && RowOf(b[i], op, gid) && RowOf(b[j], op, gid) ==> i == j
  }

  predicate RowOf(e: Entry, op: string, gid: string) {
    e.doc.OutboxDoc? && e.doc.row.operationId == op && e.doc.row.grantId == gid
  }

  /** The notice says what the row owed: this grant, this counterparty, this instant, this text. */
  predicate Carries(notice: Doc, row: Doc) {
    && notice.NoticeDoc? && row.OutboxDoc?
    && notice.notice.grantId == row.row.grantId && notice.notice.counterpartyId == row.row.counterpartyId
    && notice.notice.revokedAt == row.row.revokedAt && notice.notice.noticeText == row.row.noticeText
  }

  /** Every notice under the id carries the row under the matching id. */
  ghost predicate SameText(d: Deployment, s: Store, op: string, gid: string) {
    forall n, r :: n in Written(s, d.names.notices) && n.id == EffectId(d.h, op, gid, NOTICE)
      && r in Written(s, d.names.outbox) && r.id == EffectId(d.h, op, gid, OUTBOX)
      ==> Carries(n.doc, r.doc)
  }

  ghost predicate ExactlyOnce(d: Deployment, s: Store, op: string, gid: string) {
    && AtMostOne(Written(s, d.names.grants), EffectId(d.h, op, gid, REVOKED_EVENT))
    && AtMostOne(Written(s, d.names.outbox), EffectId(d.h, op, gid, OUTBOX))
    && AtMostOne(Written(s, d.names.notices), EffectId(d.h, op, gid, NOTICE))
    && OneRow(Written(s, d.names.outbox), op, gid)
    && (HasId(Written(s, d.names.grants), EffectId(d.h, op, gid, REVOKED_EVENT)) <==>
        HasId(Written(s, d.names.outbox), EffectId(d.h, op, gid, OUTBOX)))
    && (NoticePresent(d, s, op, gid) ==> PairPresent(d, s, op, gid))
    && SameText(d, s, op, gid)
  }

  lemma KeysOnce(b: Bucket, id: string)
    requires UniqueKeys(b)
    ensures AtMostOne(b, id)
  {
  }

  lemma RowsOnce(d: Deployment, s: Store, op: string, gid: string)
    requires StoreOk(d, s)
    ensures OneRow(Written(s, d.names.outbox), op, gid)
  {
    hide GrantEntryOk, BackedByRow, HasEvent, EffectId, Ordinary;
    var b := Written(s, d.names.outbox);
    forall i, j | 0 <= i < |b| && 0 <= j < |b| && RowOf(b[i], op, gid) && RowOf(b[j], op, gid) ensures i == j {
      RowIdOf(d, s, b[i]);
      RowIdOf(d, s, b[j]);
    }
  }

  lemma RowIdOf(d: Deployment, s: Store, e: Entry)
    requires StoreOk(d, s) && e in Written(s, d.names.outbox)
    ensures e.doc.OutboxDoc? && e == RowEntry(e.doc.row)
    ensures e.id == EffectId(d.h, e.doc.row.operationId, e.doc.row.grantId, OUTBOX)
  {
    hide GrantEntryOk, BackedByRow, UniqueKeys, EffectId, Ordinary;
    assert RowEntryOk(d, s, e);
    var x :| EventEntry(x) in Written(s, d.names.grants) && Paired(d.h, x, e.doc.row);
  }

  lemma TextsAgree(d: Deployment, s: Store, op: string, gid: string)
    requires Injective(d.h) && StoreOk(d, s)
    ensures SameText(d, s, op, gid)
    ensures NoticePresent(d, s, op, gid) ==> HasId(Written(s, d.names.outbox), EffectId(d.h, op, gid, OUTBOX))
  {
    hide GrantEntryOk, RowEntryOk, UniqueKeys, EffectId, Ordinary, Injective;
    var ns, os := Written(s, d.names.notices), Written(s, d.names.outbox);
    forall n | n in ns && n.id == EffectId(d.h, op, gid, NOTICE)
      ensures HasId(os, EffectId(d.h, op, gid, OUTBOX))
      ensures forall r :: r in os && r.id == EffectId(d.h, op, gid, OUTBOX) ==> Carries(n.doc, r.doc)
    {
      assert BackedByRow(d, s, n);
      var own :| RowEntry(own) in os && n == NoticeEntry(d.h, own);
      RowIdOf(d, s, RowEntry(own));
      SameOperation(d.h, op, gid, own.operationId, own.grantId);
      InHasId(os, RowEntry(own));
      forall r | r in os && r.id == EffectId(d.h, op, gid, OUTBOX) ensures r == RowEntry(own) {
        OneEntry(os, r, RowEntry(own));
      }
    }
  }

  lemma OneEntry(b: Bucket, x: Entry, y: Entry)
    requires UniqueKeys(b) && x in b && y in b && x.id == y.id
    ensures x == y
  {
    var i :| 0 <= i < |b| && b[i] == x;
    var j :| 0 <= j < |b| && b[j] == y;
  }

  /** In every reachable state, every effect of every operation on every grant exists at most once and never alone. */
  lemma EffectsAreExactlyOnce(d: Deployment, run: seq<World>, steps: seq<Step>, k: nat, op: string, gid: string)
    requires IsRun(d, run, steps) && k < |run|
    ensures ExactlyOnce(d, run[k].store, op, gid)
  {
    EveryStateIsInOrder(d, run, steps, k);
    var s := run[k].store;
    hide StoreOk, EffectId, Injective, SameText, OneRow, AtMostOne, IsRun;
    StoreOkKeys(d, s);
    KeysOnce(Written(s, d.names.grants), EffectId(d.h, op, gid, REVOKED_EVENT));
    KeysOnce(Written(s, d.names.outbox), EffectId(d.h, op, gid, OUTBOX));
    KeysOnce(Written(s, d.names.notices), EffectId(d.h, op, gid, NOTICE));
    RowsOnce(d, s, op, gid);
    EventIffRow(d, s, op, gid);
    TextsAgree(d, s, op, gid);
  }

  /** Step k is the one that made the document. */
  ghost predicate Makes(run: seq<World>, k: nat, collection: string, id: string)
    requires k + 1 < |run|
  {
    !HasId(Written(run[k].store, collection), id) && HasId(Written(run[k + 1].store, collection), id)
  }

  /** Over a whole run, retries and races included, at most one step ever makes a given effect. */
  lemma EffectHappensOnce(d: Deployment, run: seq<World>, steps: seq<Step>, j: nat, k: nat, collection: string,
                          id: string)
    requires IsRun(d, run, steps) && j + 1 < |run| && k + 1 < |run|
    requires Makes(run, j, collection, id) && Makes(run, k, collection, id)
    ensures j == k
  {
    if j < k {
      StoreOnlyGrows(d, run, steps, j + 1, k);
      IdPersists(Written(run[j + 1].store, collection), Written(run[k].store, collection), id);
    } else if k < j {
      StoreOnlyGrows(d, run, steps, k + 1, j);
      IdPersists(Written(run[k + 1].store, collection), Written(run[j].store, collection), id);
    }
  }

  // ------------------------------------------------------------------
  // What a finished attempt has discharged
  // ------------------------------------------------------------------

  predicate PastReading(w: World, i: nat) {
    i < |w.attempts| && (w.attempts[i].stage == Delivering || w.attempts[i].stage == Finished)
  }

  /** One step leaves another attempt as it was, and an attempt past its outbox read keeps what it read. */
  lemma AttemptStep(d: Deployment, w: World, s: Step, t: World, i: nat)
    requires Took(d, w, s, t) && Shared(d, w) && i < |w.attempts|
    ensures i < |t.attempts| && t.attempts[i].c == w.attempts[i].c
    ensures PastReading(w, i) ==> PastReading(t, i) && t.attempts[i].rows == w.attempts[i].rows
    ensures PastReading(w, i) ==>
      t.attempts[i].snapshot == w.attempts[i].snapshot && t.attempts[i].at == w.attempts[i].at
    ensures !PastReading(w, i) && PastReading(t, i) ==> s == ReadOutbox(i)
  {
    hide NextStore, Snapshot, SortBy, Owed, Gids, Selects, Ordinary;
    if Actor(s) == Some(i) {
      assert t.attempts[i] == NextAttempt(d, w, s, w.attempts[i]);
    }
  }

  lemma AttemptsAppear(d: Deployment, w: World, s: Step, t: World, i: nat)
    requires Took(d, w, s, t) && PastReading(t, i)
    ensures i < |w.attempts|
  {
    hide NextStore, NextAttempt, Gids, Selects, Ordinary;
  }

  /** Every attempt past its outbox read has read it at some step, and holds exactly what that read returned. */
  lemma {:induction false} ReadHappened(d: Deployment, run: seq<World>, steps: seq<Step>, m: nat, i: nat)
    returns (k: nat)
    requires IsRun(d, run, steps) && m < |run| && PastReading(run[m], i)
    ensures k < m && i < |run[k].attempts| && steps[k] == ReadOutbox(i) && Enabled(d, run[k], steps[k])
    ensures var a, b := run[k].attempts[i], run[m].attempts[i];
      && a.c == b.c && a.snapshot == b.snapshot && a.at == b.at && a.c.names == d.names && Typed(run[k].store, d.names)
      && b.rows == SortBy(RowLeq, Owed(a.c, run[k].store))
      && a.next == |Gids(a.snapshot)|
  {
    hide Initial, Owed, SortBy, Snapshot, NextStore, Gids, Ordinary, Selects, Typed;
    StartsEmpty(d, run[0]);
    var w, s, t := run[m - 1], steps[m - 1], run[m];
    assert Took(d, w, s, t);
    AttemptsAppear(d, w, s, t, i);
    AttemptStep(d, w, s, t, i);
    if PastReading(w, i) {
      k := ReadHappened(d, run, steps, m - 1, i);
    } else {
      k := m - 1;
      assert w.attempts[i] in w.attempts;
      assert t.attempts[i] == NextAttempt(d, w, s, w.attempts[i]);
    }
  }

  lemma StartsEmpty(d: Deployment, w: World)
    requires Initial(d, w)
    ensures w.attempts == []
  {
  }

  /** Every row of the operation stored in `s` has its notice in `t`. */
  ghost predicate Discharged(d: Deployment, s: Store, t: Store, op: string) {
    forall r :: RowKnown(d, s, op, r) ==> NoticePresent(d, t, op, r.grantId)
  }

  /** An attempt that finished has delivered every row its operation owed when it read the outbox. */
  lemma FinishedDischargesWhatItRead(d: Deployment, run: seq<World>, steps: seq<Step>, m: nat, i: nat) returns (k: nat)
    requires IsRun(d, run, steps) && m < |run| && Attempting(run[m], i, Finished)
    ensures k < m && i < |run[k].attempts| && steps[k] == ReadOutbox(i)
    ensures run[m].attempts[i].c == run[k].attempts[i].c
    ensures run[m].attempts[i].snapshot == run[k].attempts[i].snapshot && run[m].attempts[i].at == run[k].attempts[i].at
    ensures run[k].attempts[i].next == |Gids(run[k].attempts[i].snapshot)|
    ensures Discharged(d, run[k].store, run[m].store, run[k].attempts[i].c.operationId)
  {
    k := ReadHappened(d, run, steps, m, i);
    EveryStateIsInOrder(d, run, steps, k);
    EveryStateIsInOrder(d, run, steps, m);
    var op, b := run[k].attempts[i].c.operationId, run[m].attempts[i];
    assert b in run[m].attempts && SentOk(d, run[m].store, op, b.rows, b.sent) && b.sent == |b.rows|;
    hide IsRun, Inv, AttemptOk, StageOk, NoticePresent, PassedOk, RowsOk, Gids, Owed, StoreOk, RowKnown, Enabled, Typed,
         SortBy;
    SameMembers(Owed(run[k].attempts[i].c, run[k].store), b.rows);
    forall r | RowKnown(d, run[k].store, op, r) ensures NoticePresent(d, run[m].store, op, r.grantId) {
      RowReadIsKnown(d, run[k].store, run[k].attempts[i].c, r);
      var x :| 0 <= x < |b.rows| && b.rows[x] == r;
    }
  }

  /** No other operation in the outbox could share an id with this one. */
  ghost predicate SeparatedFrom(d: Deployment, s: Store, op: string) {
    forall r :: RowEntry(r) in Written(s, d.names.outbox) ==> r.operationId == op || !MayCollide(op, r.operationId)
  }

  /**
   * The row under the operation's id for the grant belongs to another operation whose id overlaps this one past a
   * colon.
   */
  ghost predicate Foreign(d: Deployment, s: Store, op: string, gid: string) {
    exists r :: RowEntry(r) in Written(s, d.names.outbox) && r.operationId != op
      && Operation(r.operationId, r.grantId) == Operation(op, gid)
  }

  /** The grant itself is terminated: a revoked event OF THAT GRANT stands under the operation's id for it. */
  ghost predicate Terminated(d: Deployment, s: Store, op: string, gid: string) {
    exists e :: EventEntry(e) in Written(s, d.names.grants) && e.eventId == EffectId(d.h, op, gid, REVOKED_EVENT)
      && e.kind == Revoked && e.grantId == gid
  }

  /** The notice under the operation's id for the grant is that grant's notice. */
  ghost predicate OwnNotice(d: Deployment, s: Store, op: string, gid: string) {
    exists n: Notice :: Entry(EffectId(d.h, op, gid, NOTICE), NoticeDoc(n)) in Written(s, d.names.notices)
      && n.grantId == gid
  }

  lemma GrantIdCancels(op1: string, op2: string, gid: string)
    requires Operation(op1, gid) == Operation(op2, gid)
    ensures op1 == op2
  {
    var s := Operation(op1, gid);
    assert |op1| == |op2|;
    assert s[..|op1|] == op1 && s[..|op2|] == op2;
  }

  /** One row per operation-and-grant text. */
  lemma RowsOfOneText(d: Deployment, s: Store, a: OutboxRow, b: OutboxRow)
    requires StoreOk(d, s) && RowEntry(a) in Written(s, d.names.outbox) && RowEntry(b) in Written(s, d.names.outbox)
    requires Operation(a.operationId, a.grantId) == Operation(b.operationId, b.grantId)
    ensures a == b
  {
    RowIdOf(d, s, RowEntry(a));
    RowIdOf(d, s, RowEntry(b));
    StoreOkKeys(d, s);
    hide StoreOk;
    OneEntry(Written(s, d.names.outbox), RowEntry(a), RowEntry(b));
  }

  /** The stored pair under the ids, as the event and the row it was committed with. */
  lemma PairUnder(d: Deployment, s: Store, op: string, gid: string) returns (e: GrantEvent, r: OutboxRow)
    requires Injective(d.h) && StoreOk(d, s) && PairPresent(d, s, op, gid)
    ensures EventEntry(e) in Written(s, d.names.grants) && e.eventId == EffectId(d.h, op, gid, REVOKED_EVENT)
    ensures RowEntry(r) in Written(s, d.names.outbox) && Paired(d.h, e, r)
    ensures Operation(r.operationId, r.grantId) == Operation(op, gid)
  {
    hide EffectId, UniqueKeys, BackedByRow, Injective, RowEntryOk, Operation;
    var gs := Written(s, d.names.grants);
    var i :| 0 <= i < |gs| && gs[i].id == EffectId(d.h, op, gid, REVOKED_EVENT);
    assert gs[i] in gs && GrantEntryOk(d, s, gs[i]);
    e := gs[i].doc.event;
    r :| RowEntry(r) in Written(s, d.names.outbox) && Paired(d.h, e, r);
    SameOperation(d.h, op, gid, r.operationId, r.grantId);
  }

  /**
   * With a pair under its ids, a grant is terminated if and only if the row there is not an overlapping operation's.
   */
  lemma TerminatedIffOwn(d: Deployment, s: Store, op: string, gid: string)
    requires Injective(d.h) && StoreOk(d, s) && PairPresent(d, s, op, gid)
    ensures Terminated(d, s, op, gid) <==> !Foreign(d, s, op, gid)
  {
    var e, r := PairUnder(d, s, op, gid);
    hide EffectId, StoreOk, Operation, PairPresent;
    if r.operationId == op {
      OneOperationSeparatesGrants(op, gid, r.grantId);
      assert Terminated(d, s, op, gid);
      forall x | RowEntry(x) in Written(s, d.names.outbox) && Operation(x.operationId, x.grantId) == Operation(op, gid)
        ensures x == r
      {
        RowsOfOneText(d, s, x, r);
      }
    } else {
      assert Foreign(d, s, op, gid);
      forall x | EventEntry(x) in Written(s, d.names.grants) && x.eventId == e.eventId ensures x.grantId != gid {
        StoreOkKeys(d, s);
        OneEntry(Written(s, d.names.grants), EventEntry(x), EventEntry(e));
        if r.grantId == gid {
          GrantIdCancels(r.operationId, op, gid);
        }
      }
    }
  }

  /**
   * An attempt that finished: every grant its snapshot selected is terminated and has its own notice in the store,
   * whoever committed them, if and only if no overlapping operation's row stands under its ids.
   */
  lemma FinishedAttemptIsComplete(d: Deployment, run: seq<World>, steps: seq<Step>, m: nat, i: nat, gid: string)
    requires IsRun(d, run, steps) && m < |run| && Attempting(run[m], i, Finished)
    requires Selects(run[m].attempts[i], gid)
    ensures var s, op := run[m].store, run[m].attempts[i].c.operationId;
      && (Terminated(d, s, op, gid) <==> !Foreign(d, s, op, gid))
      && (OwnNotice(d, s, op, gid) <==> !Foreign(d, s, op, gid))
  {
    var s, op := run[m].store, run[m].attempts[i].c.operationId;
    FinishedHasPair(d, run, steps, m, i, gid);
    EveryStateIsInOrder(d, run, steps, m);
    hide IsRun, StoreOk, PairPresent, Selects, Foreign, Terminated, AttemptOk, OwnNotice, Injective;
    TerminatedIffOwn(d, s, op, gid);
    NoticeIsOwnIff(d, s, op, gid);
  }

  /** A notice under the ids is the grant's own exactly when the row is. */
  lemma NoticeIsOwnIff(d: Deployment, s: Store, op: string, gid: string)
    requires Injective(d.h) && StoreOk(d, s) && PairPresent(d, s, op, gid)
    ensures Foreign(d, s, op, gid) ==> !OwnNotice(d, s, op, gid)
    ensures !Foreign(d, s, op, gid) && NoticePresent(d, s, op, gid) ==> OwnNotice(d, s, op, gid)
  {
    var e, r := PairUnder(d, s, op, gid);
    TextsAgree(d, s, op, gid);
    hide EffectId, StoreOk, Operation, PairPresent;
    RowIdOf(d, s, RowEntry(r));
    SameOperation(d.h, op, gid, r.operationId, r.grantId);
    forall x | RowEntry(x) in Written(s, d.names.outbox) && Operation(x.operationId, x.grantId) == Operation(op, gid)
      ensures x == r
    {
      RowsOfOneText(d, s, x, r);
    }
    if r.operationId == op {
      OneOperationSeparatesGrants(op, gid, r.grantId);
      var b := Written(s, d.names.notices);
      if NoticePresent(d, s, op, gid) {
        var k :| 0 <= k < |b| && b[k].id == EffectId(d.h, op, gid, NOTICE);
        assert b[k] in b && Carries(b[k].doc, RowEntry(r).doc);
        assert b[k] == Entry(EffectId(d.h, op, gid, NOTICE), NoticeDoc(b[k].doc.notice));
      }
    } else if r.grantId == gid {
      GrantIdCancels(r.operationId, op, gid);
    }
  }

  /** The pair and, unless the row is foreign, the notice: by id. */
  lemma FinishedHasPair(d: Deployment, run: seq<World>, steps: seq<Step>, m: nat, i: nat, gid: string)
    requires IsRun(d, run, steps) && m < |run| && Attempting(run[m], i, Finished)
    requires Selects(run[m].attempts[i], gid)
    ensures PairPresent(d, run[m].store, run[m].attempts[i].c.operationId, gid)
    ensures NoticePresent(d, run[m].store, run[m].attempts[i].c.operationId, gid)
      || Foreign(d, run[m].store, run[m].attempts[i].c.operationId, gid)
  {
    var b := run[m].attempts[i];
    var op := b.c.operationId;
    SelectedIsLogged(b.c, gid, b.snapshot, b.at);
    assert gid in Gids(b.snapshot);
    hide Gids, Selected, Resolved, EffectId;
    var k := FinishedDischargesWhatItRead(d, run, steps, m, i);
    StoreOnlyGrows(d, run, steps, k, m);
    PassedPairsPresent(d, run, steps, k, i, gid);
    EveryStateIsInOrder(d, run, steps, k);
    hide IsRun, Inv, PairPresent, NoticePresent, RowKnown, Extends, Foreign, Operation;
    PresencePersists(d, run[k].store, run[m].store, op, gid);
    var r := RowUnder(d, run[k], op, gid);
    if r.operationId == op {
      OneOperationSeparatesGrants(op, gid, r.grantId);
      OwnRowIsKnown(d, run[k].store, op, r);
    } else {
      ForeignLater(d, run[k].store, run[m].store, op, gid, r);
    }
  }

  /**
   * With operation ids that overlap no other's in the outbox, every selected grant is terminated and its own notice
   * delivered.
   */
  lemma SeparatedAttemptDelivers(d: Deployment, run: seq<World>, steps: seq<Step>, m: nat, i: nat, gid: string)
    requires IsRun(d, run, steps) && m < |run| && Attempting(run[m], i, Finished)
    requires SeparatedFrom(d, run[m].store, run[m].attempts[i].c.operationId)
    requires Selects(run[m].attempts[i], gid)
    ensures Terminated(d, run[m].store, run[m].attempts[i].c.operationId, gid)
    ensures OwnNotice(d, run[m].store, run[m].attempts[i].c.operationId, gid)
  {
    hide IsRun, Selects, Operation, MayCollide, Terminated, OwnNotice;
    FinishedAttemptIsComplete(d, run, steps, m, i, gid);
    var s, op := run[m].store, run[m].attempts[i].c.operationId;
    forall r | RowEntry(r) in Written(s, d.names.outbox) && r.operationId != op
      ensures Operation(r.operationId, r.grantId) != Operation(op, gid)
    {
      if Operation(op, gid) == Operation(r.operationId, r.grantId) {
        SharedTextOverlaps(op, gid, r.operationId, r.grantId);
      }
    }
  }

  lemma OwnRowIsKnown(d: Deployment, s: Store, op: string, r: OutboxRow)
    requires RowEntry(r) in Written(s, d.names.outbox) && r.operationId == op
    ensures RowKnown(d, s, op, r)
  {
  }

  lemma ForeignLater(d: Deployment, s: Store, t: Store, op: string, gid: string, r: OutboxRow)
    requires RowEntry(r) in Written(s, d.names.outbox) && Extends(s, t)
    requires r.operationId != op && Operation(r.operationId, r.grantId) == Operation(op, gid)
    ensures Foreign(d, t, op, gid)
  {
    hide Written, Operation;
    assert Written(s, d.names.outbox) <= Written(t, d.names.outbox);
  }

  lemma PassedPairsPresent(d: Deployment, run: seq<World>, steps: seq<Step>, k: nat, i: nat, gid: string)
    requires IsRun(d, run, steps) && k < |run| && i < |run[k].attempts|
    requires run[k].attempts[i].next == |Gids(run[k].attempts[i].snapshot)| && gid in Gids(run[k].attempts[i].snapshot)
    requires Selects(run[k].attempts[i], gid)
    ensures PairPresent(d, run[k].store, run[k].attempts[i].c.operationId, gid)
  {
    EveryStateIsInOrder(d, run, steps, k);
    hide IsRun, StoreOk, PairPresent, SelectsIn, Gids, RowsOk, SentOk;
    var a := run[k].attempts[i];
    assert a in run[k].attempts;
    var x :| 0 <= x < |Gids(a.snapshot)| && Gids(a.snapshot)[x] == gid;
  }

  /** The stored row under an operation's id for a grant spells the same operation-and-grant text. */
  lemma RowUnder(d: Deployment, w: World, op: string, gid: string) returns (r: OutboxRow)
    requires Injective(d.h) && Inv(d, w) && PairPresent(d, w.store, op, gid)
    ensures RowEntry(r) in Written(w.store, d.names.outbox) && Operation(r.operationId, r.grantId) == Operation(op, gid)
  {
    hide AttemptOk, EffectId, Injective, StoreOk, Operation;
    var b := Written(w.store, d.names.outbox);
    var x :| 0 <= x < |b| && b[x].id == EffectId(d.h, op, gid, OUTBOX);
    assert b[x] in b;
    RowIdOf(d, w.store, b[x]);
    r := b[x].doc.row;
    SameOperation(d.h, op, gid, r.operationId, r.grantId);
  }
}
