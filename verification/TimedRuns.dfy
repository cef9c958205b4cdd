/**
 * Interleaved runs on a clock: every reading is later than everything done before, nothing is logged before its date.
 * Finality then needs no word about dates, only about what was free and pending when the attempt read the log.
 */
module TimedRuns {
  import opened Scopes
  import opened Lattice
  import opened Resolver
  import opened Evaluator
  import opened Effects
  import opened Gateway
  import opened Cascade
  import opened CascadeTheorems
  import opened CascadeMachine
  import opened RunFinality
  import Sorting

  // ------------------------------------------------------------------
  // The clock
  // ------------------------------------------------------------------

  /** A step that reads the clock reads `now`; a grant event of others was dated no later than it is logged. */
  predicate OnTime(s: Step, now: Instant) {
    match s
    case TakeClock(_, at) => at == now
    case DraftNotice(_, x) => x.now == now
    case LogEvent(e) => e.issuedAt <= now
    case _ => true
  }

  /** Step k runs between clocks[k] and clocks[k + 1], and reads the latter. */
  ghost predicate IsTimed(d: Deployment, run: seq<World>, steps: seq<Step>, clocks: seq<Instant>) {
    && IsRun(d, run, steps) && |clocks| == |run|
    && (forall j, k :: 0 <= j < k < |clocks| ==> clocks[j] < clocks[k])
    && (forall k :: 0 <= k < |steps| ==> OnTime(steps[k], clocks[k + 1]))
    && forall e :: Logged(d.names, run[0].store, e) ==> e.issuedAt <= clocks[0]
  }

  // ------------------------------------------------------------------
  // What one step logs
  // ------------------------------------------------------------------

  /** The event is the one the step logs: somebody's own, or the terminating half of a pair, dated by its draft. */
  ghost predicate LoggedBy(d: Deployment, w: World, s: Step, e: GrantEvent) {
    || (s.LogEvent? && e == s.e && Ordinary(d.h, e.eventId))
    || (s.CommitPair? && s.i < |w.attempts| && w.attempts[s.i].draft.Some?
        && e.issuedAt == w.attempts[s.i].draft.value.now
        && e.eventId == EffectId(d.h, w.attempts[s.i].c.operationId, e.grantId, REVOKED_EVENT))
  }

  /** The grants collection grew by at most one event, and that one is the step's. */
  ghost predicate GrewBy(d: Deployment, w: World, s: Step, t: Store, added: seq<GrantEvent>) {
    && t.served == w.store.served
    && Written(t, d.names.grants) == Written(w.store, d.names.grants) + EventEntries(added)
    && forall e :: e in added ==> LoggedBy(d, w, s, e)
  }

  lemma NothingAdded(d: Deployment, w: World, s: Step, t: Store)
    requires t.served == w.store.served && Written(t, d.names.grants) == Written(w.store, d.names.grants)
    ensures GrewBy(d, w, s, t, [])
  {
    hide Written, LoggedBy;
    assert EventEntries([]) == [];
  }

  lemma CommitLogs(d: Deployment, w: World, i: nat) returns (added: seq<GrantEvent>)
    requires Inv(d, w) && Enabled(d, w, CommitPair(i))
    ensures GrewBy(d, w, CommitPair(i), NextStore(d, w, CommitPair(i)), added)
  {
    var a := w.attempts[i];
    assert a in w.attempts && AttemptOk(d, w.store, a);
    var st := Resolved(Gids(a.snapshot)[a.next], None, a.snapshot);
    hide StoreOk, AttemptOk, Resolved, Gids, EffectId, CreateAll, Pair, Clear, Ordinary, Written;
    FoldNamesGrant(Gids(a.snapshot)[a.next], None, a.snapshot);
    PairGrows(a.c, w.store, st, a.draft.value);
    added := if Clear(a.c, w.store, st.grantId) then [RevokedEventFor(a.c, st, a.draft.value)] else [];
    if added == [] {
      NothingAdded(d, w, CommitPair(i), NextStore(d, w, CommitPair(i)));
    }
  }

  lemma CreateLogs(d: Deployment, w: World, s: Step, x: Write) returns (added: seq<GrantEvent>)
    requires x.collection == d.names.grants ==>
      s.LogEvent? && x == Write(d.names.grants, s.e.eventId, GrantDoc(s.e)) && Ordinary(d.h, s.e.eventId)
    ensures GrewBy(d, w, s, CreateAll(w.store, [x]), added)
  {
    hide CreateAll, Ordinary, Written;
    OneCreate(w.store, x);
    if x.collection == d.names.grants && !Taken(w.store, x) {
      added := [s.e];
      assert EventEntries(added) == [Entry(x.id, x.doc)];
    } else {
      added := [];
      NothingAdded(d, w, s, CreateAll(w.store, [x]));
    }
  }

  lemma StepLogs(d: Deployment, w: World, s: Step, t: World) returns (added: seq<GrantEvent>)
    requires Inv(d, w) && Took(d, w, s, t)
    ensures GrewBy(d, w, s, t.store, added)
  {
    hide CreateAll, Ordinary, Written, GrewBy, Resolved, Gids, Pair, StoreOk, AttemptOk;
    match s
    case CommitPair(i) => added := CommitLogs(d, w, i);
    case Deliver(i) =>
      AttemptIsOfDeployment(d, w, i);
      added := CreateLogs(d, w, s, NoticeWrite(w.attempts[i].c, w.attempts[i].rows[w.attempts[i].sent]));
    case LogEvent(e) => added := CreateLogs(d, w, s, Write(d.names.grants, e.eventId, GrantDoc(e)));
    case WriteElsewhere(x) => added := CreateLogs(d, w, s, x);
    case _ =>
      added := [];
      NothingAdded(d, w, s, t.store);
  }

  /** A draft held after a step was held before it, or is the one the step took. */
  lemma DraftStep(d: Deployment, w: World, s: Step, t: World, i: nat)
    requires Took(d, w, s, t) && i < |t.attempts| && t.attempts[i].draft.Some?
    ensures i < |w.attempts| && t.attempts[i].c == w.attempts[i].c
    ensures t.attempts[i].draft == w.attempts[i].draft || s == DraftNotice(i, t.attempts[i].draft.value)
  {
    hide NextStore, Snapshot, Sorting.SortBy, Owed, Gids, Selects, Ordinary, Typed;
    if Actor(s) == Some(i) {
      assert w.attempts[i] in w.attempts;
      assert t.attempts[i] == NextAttempt(d, w, s, w.attempts[i]);
    }
  }

  // ------------------------------------------------------------------
  // Nothing is dated ahead of the clock
  // ------------------------------------------------------------------

  ghost predicate NothingAhead(d: Deployment, w: World, now: Instant) {
    && (forall e :: Logged(d.names, w.store, e) ==> e.issuedAt <= now)
    && forall i :: 0 <= i < |w.attempts| && w.attempts[i].draft.Some? ==> w.attempts[i].draft.value.now <= now
  }

  lemma StepStaysBehind(d: Deployment, w: World, s: Step, t: World, before: Instant, now: Instant)
    requires Inv(d, w) && Took(d, w, s, t) && NothingAhead(d, w, before) && before < now && OnTime(s, now)
    ensures NothingAhead(d, t, now)
  {
    hide Inv, Took, Logged, EffectId, Ordinary, Written;
    var added := StepLogs(d, w, s, t);
    forall e | Logged(d.names, t.store, e) ensures e.issuedAt <= now {
      LoggedAfter(d.names, w.store, t.store, added, e);
    }
    forall i | 0 <= i < |t.attempts| && t.attempts[i].draft.Some? ensures t.attempts[i].draft.value.now <= now {
      DraftStep(d, w, s, t, i);
    }
  }

  lemma {:induction false} NothingIsAhead(d: Deployment, run: seq<World>, steps: seq<Step>, clocks: seq<Instant>,
                                          k: nat)
    requires IsTimed(d, run, steps, clocks) && k < |run|
    ensures NothingAhead(d, run[k], clocks[k])
  {
    hide Took, Initial, Logged;
    if k == 0 {
      StartsEmpty(d, run[0]);
    } else {
      NothingIsAhead(d, run, steps, clocks, k - 1);
      EveryStateIsInOrder(d, run, steps, k - 1);
      hide Inv, NothingAhead, OnTime;
      assert Took(d, run[k - 1], steps[k - 1], run[k]);
      StepStaysBehind(d, run[k - 1], steps[k - 1], run[k], clocks[k - 1], clocks[k]);
    }
  }

  // ------------------------------------------------------------------
  // What an operation terminates after a moment at which it had nothing pending
  // ------------------------------------------------------------------

  /** The attempt holds a draft, and its operation overlaps this one. */
  predicate Pending(a: Attempt, op: string) {
    MayCollide(op, a.c.operationId) && a.draft.Some?
  }

  /** No attempt whose operation overlaps this one holds a draft. */
  ghost predicate NothingPending(w: World, op: string) {
    forall i :: 0 <= i < |w.attempts| ==> !Pending(w.attempts[i], op)
  }

  ghost predicate Ends(d: Deployment, op: string, b: Entry) {
    exists gid :: b.id == EffectId(d.h, op, gid, REVOKED_EVENT)
  }

  /**
   * Every draft that could come to stand under the operation's ids, and every event that came to, is dated after
   * `moment`.
   */
  ghost predicate OnlyLater(d: Deployment, w: World, base: Bucket, op: string, moment: Instant) {
    && (forall i :: 0 <= i < |w.attempts| && Pending(w.attempts[i], op) ==> moment < w.attempts[i].draft.value.now)
    && forall b :: b in Written(w.store, d.names.grants) && b !in base && Ends(d, op, b) ==>
      b.doc.GrantDoc? && moment < b.doc.event.issuedAt
  }

  lemma AddedLater(d: Deployment, w: World, s: Step, base: Bucket, op: string, moment: Instant, e: GrantEvent)
    requires Injective(d.h) && OnlyLater(d, w, base, op, moment) && LoggedBy(d, w, s, e) && Ends(d, op, EventEntry(e))
    ensures moment < e.issuedAt
  {
    var gid :| EventEntry(e).id == EffectId(d.h, op, gid, REVOKED_EVENT);
    hide EffectId, Injective, Written;
    if s.CommitPair? {
      var own := w.attempts[s.i].c.operationId;
      EffectIdsAgree(d.h, op, gid, REVOKED_EVENT, own, e.grantId, REVOKED_EVENT);
      SharedTextOverlaps(op, gid, own, e.grantId);
    }
  }

  lemma StepOnlyLater(d: Deployment, w: World, s: Step, t: World, base: Bucket, op: string, moment: Instant,
                      now: Instant)
    requires Inv(d, w) && Injective(d.h) && Took(d, w, s, t) && OnlyLater(d, w, base, op, moment) && moment < now
    requires OnTime(s, now)
    ensures OnlyLater(d, t, base, op, moment)
  {
    hide Inv, Took, EffectId, Ordinary, Written, Injective, MayCollide, Ends, LoggedBy;
    var added := StepLogs(d, w, s, t);
    forall i | 0 <= i < |t.attempts| && Pending(t.attempts[i], op)
      ensures moment < t.attempts[i].draft.value.now
    {
      DraftStep(d, w, s, t, i);
    }
    forall b | b in Written(t.store, d.names.grants) && b !in base && Ends(d, op, b)
      ensures b.doc.GrantDoc? && moment < b.doc.event.issuedAt
    {
      if b !in Written(w.store, d.names.grants) {
        assert b in EventEntries(added);
        var i :| 0 <= i < |added| && EventEntries(added)[i] == b;
        assert added[i] in added && b == EventEntry(added[i]);
        AddedLater(d, w, s, base, op, moment, added[i]);
      }
    }
  }

  lemma {:induction false} EndedOnlyLater(d: Deployment, run: seq<World>, steps: seq<Step>, clocks: seq<Instant>,
                                          j: nat, m: nat, op: string)
    requires IsTimed(d, run, steps, clocks) && j <= m < |run| && NothingPending(run[j], op)
    ensures OnlyLater(d, run[m], Written(run[j].store, d.names.grants), op, clocks[j])
  {
    hide Took, Initial, Ends, MayCollide, Written;
    if j < m {
      EndedOnlyLater(d, run, steps, clocks, j, m - 1, op);
      EveryStateIsInOrder(d, run, steps, m - 1);
      hide Inv, OnlyLater, OnTime, Injective;
      assert Took(d, run[m - 1], steps[m - 1], run[m]);
      StepOnlyLater(d, run[m - 1], steps[m - 1], run[m], Written(run[j].store, d.names.grants), op, clocks[j],
                    clocks[m]);
    }
  }

  // ------------------------------------------------------------------
  // What the attempt read stays what it read
  // ------------------------------------------------------------------

  /** The attempt is past its reading of the log, and holds what it then read. */
  ghost predicate Holds(d: Deployment, w: World, i: nat, c: Config, s: Store) {
    && i < |w.attempts| && w.attempts[i].stage != Begun && w.attempts[i].c == c && c.names == d.names
    && Typed(s, d.names)
    && w.attempts[i].snapshot == Snapshot(c, s)
  }

  lemma HoldsOn(d: Deployment, w: World, s: Step, t: World, i: nat, c: Config, read: Store)
    requires Took(d, w, s, t) && Holds(d, w, i, c, read)
    ensures Holds(d, t, i, c, read)
  {
    hide NextStore, Snapshot, Sorting.SortBy, Owed, Gids, Selects, Ordinary, Typed;
    if Actor(s) == Some(i) {
      assert t.attempts[i] == NextAttempt(d, w, s, w.attempts[i]);
    }
  }

  lemma ReadHolds(d: Deployment, w: World, t: World, i: nat)
    requires Took(d, w, ReadSnapshot(i), t)
    ensures i < |w.attempts| && Holds(d, t, i, w.attempts[i].c, w.store)
  {
    hide NextStore, Snapshot, Gids, Selects, Ordinary, Typed;
    assert w.attempts[i] in w.attempts;
    assert t.attempts[i] == NextAttempt(d, w, ReadSnapshot(i), w.attempts[i]);
  }

  lemma {:induction false} ReadIsKept(d: Deployment, run: seq<World>, steps: seq<Step>, j: nat, m: nat, i: nat)
    requires IsRun(d, run, steps) && j < m < |run| && steps[j] == ReadSnapshot(i)
    ensures i < |run[j].attempts| && Holds(d, run[m], i, run[j].attempts[i].c, run[j].store)
  {
    hide Took, Initial, Holds;
    assert Took(d, run[j], steps[j], run[j + 1]);
    ReadHolds(d, run[j], run[j + 1], i);
    if j + 1 < m {
      ReadIsKept(d, run, steps, j, m - 1, i);
      assert Took(d, run[m - 1], steps[m - 1], run[m]);
      HoldsOn(d, run[m - 1], steps[m - 1], run[m], i, run[j].attempts[i].c, run[j].store);
    }
  }

  // ------------------------------------------------------------------
  // Finality on a clock
  // ------------------------------------------------------------------

  /** Some event of the grant is dated after the attempt's reading and no later than `upTo`. */
  ghost predicate EndedBetween(n: Names, s: Store, gid: string, moment: Instant, upTo: Instant) {
    exists f :: Logged(n, s, f) && f.grantId == gid && moment < f.issuedAt <= upTo
  }

  /**
   * What a reader of the log at `asOf` can rest on: the attempt's snapshot dated up to `moment`, the endings up to
   * `upTo`.
   */
  ghost predicate Settled(a: Attempt, s: Store, moment: Instant, upTo: Instant, asOf: Option<Instant>) {
    && Typed(s, a.c.names) && Premises(a.c, s) && StillLogged(a.c.names, s, a) && NoGrantSince(a, s)
    && (forall e :: e in a.snapshot ==> e.issuedAt <= moment) && moment <= upTo && (asOf.Some? ==> upTo <= asOf.value)
    && forall gid :: Selects(a, gid) ==> EndedBetween(a.c.names, s, gid, moment, upTo)
  }

  lemma ReaderFindsNothing(a: Attempt, s: Store, o: Orders, moment: Instant, upTo: Instant, counterpartyId: string,
                           asOf: Option<Instant>, t: Instant)
    requires Settled(a, s, moment, upTo, asOf) && ValidOrders(o) && a.c.order == o.use && a.at <= t
    ensures Withdrawn(a.c, o, View(a.c.names, s, a.c.workId, counterpartyId), asOf, t)
  {
    ViewsOf(a.c, s, counterpartyId);
    var view := View(a.c.names, s, a.c.workId, counterpartyId);
    assert Typed(s, a.c.names);
    hide ActiveGrants, Settled, View, Admits, ValidOrders, UniqueIds, Snapshot, Typed, Selected, Resolved, IsLast;
    ActiveGrantsProjectTheFold(view, asOf);
    forall req: Scope, g | ValidScope(o, req) && Contains(o.use, req.useType, a.c.useType)
      && g in ActiveGrants(view, asOf)
      ensures !Admits(o, g.scope, req, t)
    {
      LastIsRead(a, s, moment, upTo, counterpartyId, asOf, g);
      UnselectedCannotAdmit(a.c, o, a.snapshot, a.at, t, g, req);
    }
  }

  /**
   * A reader's last event that is a granting is one the attempt read, was last then too, and is of a grant not
   * selected.
   */
  lemma LastIsRead(a: Attempt, s: Store, moment: Instant, upTo: Instant, counterpartyId: string, asOf: Option<Instant>,
                   g: GrantEvent)
    requires Settled(a, s, moment, upTo, asOf)
    requires IsLast(View(a.c.names, s, a.c.workId, counterpartyId), g.grantId, asOf, g) && g.kind == Granted
    ensures UniqueIds(a.snapshot) && IsLast(a.snapshot, g.grantId, None, g) && !Selects(a, g.grantId)
  {
    var view := View(a.c.names, s, a.c.workId, counterpartyId);
    forall e
      ensures e in view <==> Logged(a.c.names, s, e) && e.workId == a.c.workId && e.counterpartyId == counterpartyId
    {
      ViewMembers(a.c.names, s, a.c.workId, counterpartyId, e);
    }
    hide Logged, View, Typed, Selects, KeyLeq;
    assert g in a.snapshot;
    if Selects(a, g.grantId) {
      var f :| Logged(a.c.names, s, f) && f.grantId == g.grantId && moment < f.issuedAt <= upTo;
      NotLastBehind(view, asOf, f, g);
    }
  }

  /** What was free and not pending when the attempt read, and stands there terminated, ended after that reading. */
  lemma TerminatedSince(d: Deployment, run: seq<World>, steps: seq<Step>, clocks: seq<Instant>, j: nat, f: nat, m: nat,
                        c: Config, gid: string)
    requires IsTimed(d, run, steps, clocks) && j <= f <= m < |run| && c.h == d.h && c.names == d.names
    requires NothingPending(run[j], c.operationId) && Clear(c, run[j].store, gid)
    requires Terminated(d, run[f].store, c.operationId, gid)
    ensures EndedBetween(d.names, run[m].store, gid, clocks[j], clocks[f])
  {
    var e := TerminatedEntry(d, run[f].store, c.operationId, gid);
    EndedOnlyLater(d, run, steps, clocks, j, f, c.operationId);
    NothingIsAhead(d, run, steps, clocks, f);
    StoreOnlyGrows(d, run, steps, f, m);
    LoggedPersists(d.names, run[f].store, run[m].store, e);
    hide IsTimed, Terminated, Logged, EffectId, Written, NothingPending, Extends;
    if EventEntry(e) in Written(run[j].store, d.names.grants) {
      InHasId(Written(run[j].store, d.names.grants), EventEntry(e));
    }
    assert Ends(d, c.operationId, EventEntry(e));
  }

  lemma TerminatedEntry(d: Deployment, s: Store, op: string, gid: string) returns (e: GrantEvent)
    requires Terminated(d, s, op, gid)
    ensures EventEntry(e) in Written(s, d.names.grants) && e.eventId == EffectId(d.h, op, gid, REVOKED_EVENT)
    ensures e.grantId == gid
    ensures Logged(d.names, s, e)
  {
    hide EffectId;
    var b := Written(s, d.names.grants);
    e :| EventEntry(e) in b && e.eventId == EffectId(d.h, op, gid, REVOKED_EVENT) && e.kind == Revoked
      && e.grantId == gid;
    var i :| 0 <= i < |b| && b[i] == EventEntry(e);
    assert DocsOf(b)[i] == GrantDoc(e);
  }

  /**
   * The grants the attempt selected were free when it read the log, no overlapping operation had a draft pending then,
   * and none came to stand under its ids.
   */
  ghost predicate OwnOperation(d: Deployment, run: seq<World>, j: nat, f: nat, i: nat)
    requires j < |run| && f < |run| && i < |run[f].attempts|
  {
    var a := run[f].attempts[i];
    && NothingPending(run[j], a.c.operationId)
    && (forall gid :: Selects(a, gid) ==> Clear(a.c, run[j].store, gid))
    && (forall gid :: Selects(a, gid) ==> !Foreign(d, run[f].store, a.c.operationId, gid))
  }

  /**
   * Finality over timed runs, with no premise about dates: the attempt reads the log at step j and has finished by
   * state f; then in every state m from then on without a new grant on the work since its reading, for every
   * counterparty, every as-of instant from f on (or none) and every instant from its own on, nobody may use what was
   * revoked.
   */
  lemma FinalityOnAClock(d: Deployment, run: seq<World>, steps: seq<Step>, clocks: seq<Instant>, j: nat, f: nat, m: nat,
                         i: nat, o: Orders, counterpartyId: string, asOf: Option<Instant>, t: Instant)
    requires IsTimed(d, run, steps, clocks) && j < f <= m < |run| && steps[j] == ReadSnapshot(i)
    requires Attempting(run[f], i, Finished)
    requires ValidOrders(o) && d.order == o.use && OwnOperation(d, run, j, f, i)
    requires Premises(run[f].attempts[i].c, run[m].store) && NoGrantSince(run[f].attempts[i], run[m].store)
    requires run[f].attempts[i].at <= t && (asOf.Some? ==> clocks[f] <= asOf.value)
    ensures Typed(run[m].store, run[f].attempts[i].c.names)
    ensures var c := run[f].attempts[i].c;
      Withdrawn(c, o, View(c.names, run[m].store, c.workId, counterpartyId), asOf, t)
  {
    var a := run[f].attempts[i];
    assert IsRun(d, run, steps) && clocks[j] < clocks[f];
    EveryStateIsInOrder(d, run, steps, f);
    EveryStateIsInOrder(d, run, steps, m);
    hide *;
    InOrderParts(d, run[m]);
    AttemptIsOfDeployment(d, run[f], i);
    ReadIsDated(d, run, steps, clocks, j, f, i);
    SnapshotsStayLogged(d, run, steps, f, i);
    StoreOnlyGrows(d, run, steps, f, m);
    StaysLogged(d.names, run[f].store, run[m].store, a);
    forall gid | Selects(a, gid) ensures EndedBetween(d.names, run[m].store, gid, clocks[j], clocks[f]) {
      OwnParts(d, run, j, f, i, gid);
      FinishedAttemptIsComplete(d, run, steps, f, i, gid);
      TerminatedSince(d, run, steps, clocks, j, f, m, a.c, gid);
    }
    MakeSettled(a, run[m].store, clocks[j], clocks[f], asOf);
    ReaderFindsNothing(a, run[m].store, o, clocks[j], clocks[f], counterpartyId, asOf, t);
  }

  lemma OwnParts(d: Deployment, run: seq<World>, j: nat, f: nat, i: nat, gid: string)
    requires j < |run| && f < |run| && i < |run[f].attempts| && OwnOperation(d, run, j, f, i)
    requires Selects(run[f].attempts[i], gid)
    ensures var a := run[f].attempts[i];
      && NothingPending(run[j], a.c.operationId) && Clear(a.c, run[j].store, gid)
      && !Foreign(d, run[f].store, a.c.operationId, gid)
  {
    hide NothingPending, Clear, Foreign, Selects;
  }

  lemma MakeSettled(a: Attempt, s: Store, moment: Instant, upTo: Instant, asOf: Option<Instant>)
    requires Typed(s, a.c.names) && Premises(a.c, s) && StillLogged(a.c.names, s, a) && NoGrantSince(a, s)
    requires (forall e :: e in a.snapshot ==> e.issuedAt <= moment) && moment <= upTo
    requires (asOf.Some? ==> upTo <= asOf.value)
    requires forall gid :: Selects(a, gid) ==> EndedBetween(a.c.names, s, gid, moment, upTo)
    ensures Settled(a, s, moment, upTo, asOf)
  {
    hide Typed, Premises, StillLogged, NoGrantSince, Selects, EndedBetween;
  }

  lemma ReadIsDated(d: Deployment, run: seq<World>, steps: seq<Step>, clocks: seq<Instant>, j: nat, f: nat, i: nat)
    requires IsTimed(d, run, steps, clocks) && j < f < |run| && steps[j] == ReadSnapshot(i) && i < |run[f].attempts|
    ensures forall e :: e in run[f].attempts[i].snapshot ==> e.issuedAt <= clocks[j]
  {
    ReadIsKept(d, run, steps, j, f, i);
    NothingIsAhead(d, run, steps, clocks, j);
    var a := run[f].attempts[i];
    assert Typed(run[j].store, d.names) && a.snapshot == Snapshot(a.c, run[j].store) && a.c.names == d.names;
    hide IsTimed, Typed, Snapshot, Logged, Holds;
    forall e | e in a.snapshot ensures e.issuedAt <= clocks[j] {
      SnapshotMembers(a.c, run[j].store, e);
    }
  }

  // ------------------------------------------------------------------
  // Fresh operation ids
  // ------------------------------------------------------------------

  lemma BegunStep(d: Deployment, w: World, s: Step, t: World, i: nat)
    requires Took(d, w, s, t) && Attempting(t, i, Begun)
    ensures i < |w.attempts| ==> w.attempts[i] == t.attempts[i]
    ensures i >= |w.attempts| ==> t.attempts[i].draft.None?
  {
    hide NextStore, Snapshot, Sorting.SortBy, Owed, Gids, Selects, Ordinary, Typed;
  }

  lemma {:induction false} BegunHoldsNoDraft(d: Deployment, run: seq<World>, steps: seq<Step>, k: nat, i: nat)
    requires IsRun(d, run, steps) && k < |run| && Attempting(run[k], i, Begun)
    ensures run[k].attempts[i].draft.None?
  {
    hide Took, Initial;
    StartsEmpty(d, run[0]);
    assert Took(d, run[k - 1], steps[k - 1], run[k]);
    BegunStep(d, run[k - 1], steps[k - 1], run[k], i);
    if i < |run[k - 1].attempts| {
      BegunHoldsNoDraft(d, run, steps, k - 1, i);
    }
  }

  /** When the attempt reads, its operation id overlaps no stored row's and no other attempt's. */
  ghost predicate FirstOfItsOperation(d: Deployment, w: World, i: nat, op: string) {
    Fresh(d, w.store, op) && forall x :: 0 <= x < |w.attempts| && x != i ==>
      !MayCollide(op, w.attempts[x].c.operationId)
  }

  /** The first attempt of a fresh operation owns its ids, as long as none but its own retries come to overlap it. */
  lemma FreshOperationIsOwn(d: Deployment, run: seq<World>, steps: seq<Step>, j: nat, f: nat, i: nat)
    requires IsRun(d, run, steps) && j < f < |run| && steps[j] == ReadSnapshot(i) && i < |run[f].attempts|
    requires var op := run[f].attempts[i].c.operationId;
      FirstOfItsOperation(d, run[j], i, op) && SeparatedFrom(d, run[f].store, op)
    ensures OwnOperation(d, run, j, f, i)
  {
    var a := run[f].attempts[i];
    ReadBegan(d, run, steps, j, i);
    BegunHoldsNoDraft(d, run, steps, j, i);
    EveryStateIsInOrder(d, run, steps, j);
    EveryStateIsInOrder(d, run, steps, f);
    InOrderParts(d, run[j]);
    AttemptIsOfDeployment(d, run[f], i);
    hide IsRun, Inv, StoreOk, Injective, Clear, Fresh, Foreign, Selects, MayCollide, SeparatedFrom, Typed;
    forall gid ensures Clear(a.c, run[j].store, gid) && !Foreign(d, run[f].store, a.c.operationId, gid) {
      FreshOperationIsClear(d, run[j].store, a.c, gid);
      SeparatedIsOwn(d, run[f].store, a.c.operationId, gid);
    }
  }

  lemma ReadBegan(d: Deployment, run: seq<World>, steps: seq<Step>, j: nat, i: nat)
    requires IsRun(d, run, steps) && j < |steps| && steps[j] == ReadSnapshot(i)
    ensures Attempting(run[j], i, Begun)
  {
    assert Took(d, run[j], steps[j], run[j + 1]);
  }

  lemma SeparatedIsOwn(d: Deployment, s: Store, op: string, gid: string)
    requires SeparatedFrom(d, s, op)
    ensures !Foreign(d, s, op, gid)
  {
    hide Operation, MayCollide;
    forall r | RowEntry(r) in Written(s, d.names.outbox) && Operation(r.operationId, r.grantId) == Operation(op, gid)
      ensures r.operationId == op
    {
      SharedTextOverlaps(op, gid, r.operationId, r.grantId);
    }
  }
}
