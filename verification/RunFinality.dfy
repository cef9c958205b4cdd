/** Finality over interleaved runs, and the condition a caller meets by choosing a fresh operation id. */
module RunFinality {
  import opened Scopes
  import opened Lattice
  import opened Resolver
  import opened Evaluator
  import opened Effects
  import opened Gateway
  import opened Cascade
  import opened CascadeTheorems
  import opened CascadeMachine
  import Text

  // ------------------------------------------------------------------
  // Fresh operation ids
  // ------------------------------------------------------------------

  /** Some stored row has the operation-and-grant text of this operation on this grant. */
  ghost predicate TextStored(d: Deployment, s: Store, op: string, gid: string) {
    exists r :: RowEntry(r) in Written(s, d.names.outbox) && Operation(r.operationId, r.grantId) == Operation(op, gid)
  }

  lemma RowOfText(d: Deployment, s: Store, op: string, gid: string) returns (r: OutboxRow)
    requires TextStored(d, s, op, gid)
    ensures RowEntry(r) in Written(s, d.names.outbox) && Operation(r.operationId, r.grantId) == Operation(op, gid)
  {
    hide Operation, Written;
    r :| RowEntry(r) in Written(s, d.names.outbox) && Operation(r.operationId, r.grantId) == Operation(op, gid);
  }

  /** A grant's pair of ids is free exactly when no stored row has its operation-and-grant text. */
  lemma ClearIff(d: Deployment, s: Store, c: Config, gid: string)
    requires Injective(d.h) && StoreOk(d, s) && c.h == d.h && c.names == d.names
    ensures Clear(c, s, gid) <==> !TextStored(d, s, c.operationId, gid)
  {
    EventIffRow(d, s, c.operationId, gid);
    hide StoreOk, EffectId, Injective, Operation;
    var b := Written(s, d.names.outbox);
    forall r | RowEntry(r) in b
      ensures r.outboxId == EffectId(d.h, c.operationId, gid, OUTBOX) <==>
        Operation(r.operationId, r.grantId) == Operation(c.operationId, gid)
    {
      RowIdOf(d, s, RowEntry(r));
      SameOperation(d.h, r.operationId, r.grantId, c.operationId, gid);
    }
    if !Clear(c, s, gid) {
      var i :| 0 <= i < |b| && b[i].id == EffectId(d.h, c.operationId, gid, OUTBOX);
      assert b[i] in b;
      RowIdOf(d, s, b[i]);
      assert RowEntry(b[i].doc.row) in b;
    }
    if r :| RowEntry(r) in b && Operation(r.operationId, r.grantId) == Operation(c.operationId, gid) {
      InHasId(b, RowEntry(r));
    }
  }

  /** No stored row's operation is this one, or one of the two extends the other past a colon. */
  ghost predicate Fresh(d: Deployment, s: Store, op: string) {
    forall r :: RowEntry(r) in Written(s, d.names.outbox) ==> !MayCollide(op, r.operationId)
  }

  /** A fresh operation finds every pair of ids free, whatever grants it will select. */
  lemma FreshOperationIsClear(d: Deployment, s: Store, c: Config, gid: string)
    requires Injective(d.h) && StoreOk(d, s) && c.h == d.h && c.names == d.names && Fresh(d, s, c.operationId)
    ensures Clear(c, s, gid)
  {
    hide StoreOk, Injective, Operation, Clear, MayCollide;
    ClearIff(d, s, c, gid);
    if TextStored(d, s, c.operationId, gid) {
      var r := RowOfText(d, s, c.operationId, gid);
      SharedTextOverlaps(c.operationId, gid, r.operationId, r.grantId);
    }
  }

  /** So a completed call under a fresh operation id, begun in any reachable state, withdraws the use for good. */
  lemma FreshOperationIsFinal(d: Deployment, run: seq<World>, steps: seq<Step>, k: nat, c: Config, o: Orders,
                              after: Store, later: Store, at: Instant, end: Instant, drafts: map<string, Draft>,
                              draft: string -> string, r: CascadeResult, counterpartyId: string, asOf: Option<Instant>,
                              t: Instant)
    requires IsRun(d, run, steps) && k < |run| && c.h == d.h && c.names == d.names
    requires Fresh(d, run[k].store, c.operationId)
    requires ValidOrders(o) && c.order == o.use && Ran(c, run[k].store, after, at, end, drafts, draft, r)
    requires NothingFromTheFuture(c, run[k].store, at) && NoNewGrant(c, after, later) && Premises(c, later)
    requires at <= t && (asOf.Some? ==> end <= asOf.value)
    ensures Withdrawn(c, o, View(c.names, later, c.workId, counterpartyId), asOf, t)
  {
    EveryStateIsInOrder(d, run, steps, k);
    assert Distinct(d.names);
    assert Typed(run[k].store, c.names);
    hide IsRun, Inv, Injective, Fresh, Clear, Ran, NothingFromTheFuture, NoNewGrant, Premises, StoreOk, Withdrawn,
         Selected, Resolved, Snapshot, View, Typed;
    InOrderParts(d, run[k]);
    forall gid ensures Clear(c, run[k].store, gid) {
      FreshOperationIsClear(d, run[k].store, c, gid);
    }
    Finality(c, o, run[k].store, after, later, at, end, drafts, draft, r, counterpartyId, asOf, t);
  }

  lemma InOrderParts(d: Deployment, w: World)
    requires Inv(d, w)
    ensures StoreOk(d, w.store) && Typed(w.store, d.names)
  {
    hide StoreOk, AttemptOk;
    StoreOkKeys(d, w.store);
  }

  // ------------------------------------------------------------------
  // What an attempt read stays in the log
  // ------------------------------------------------------------------

  /** Every event of the snapshot is in the log, and is of the attempt's work. */
  ghost predicate StillLogged(n: Names, s: Store, a: Attempt) {
    forall e :: e in a.snapshot ==> Logged(n, s, e) && e.workId == a.c.workId
  }

  lemma StaysLogged(n: Names, s: Store, t: Store, a: Attempt)
    requires Extends(s, t) && StillLogged(n, s, a)
    ensures StillLogged(n, t, a)
  {
    hide Logged, Extends;
    forall e | e in a.snapshot ensures Logged(n, t, e) {
      LoggedPersists(n, s, t, e);
    }
  }

  lemma ReadIsLogged(a: Attempt, s: Store, n: Names)
    requires Typed(s, n) && a.c.names == n && a.snapshot == Snapshot(a.c, s)
    ensures StillLogged(n, s, a)
  {
    hide Snapshot, Logged, Typed;
    forall e | e in a.snapshot ensures Logged(n, s, e) && e.workId == a.c.workId {
      SnapshotMembers(a.c, s, e);
    }
  }

  /** A step changes an attempt's snapshot only by reading it. */
  lemma SnapshotStep(d: Deployment, w: World, s: Step, t: World, i: nat)
    requires Took(d, w, s, t) && i < |t.attempts|
    ensures i < |w.attempts| ==> t.attempts[i].c == w.attempts[i].c
    ensures i < |w.attempts| && s != ReadSnapshot(i) ==> t.attempts[i].snapshot == w.attempts[i].snapshot
    ensures i >= |w.attempts| ==> t.attempts[i].snapshot == []
    ensures s == ReadSnapshot(i) ==>
      Typed(w.store, d.names) && t.attempts[i].c.names == d.names
        && t.attempts[i].snapshot == Snapshot(t.attempts[i].c, w.store)
  {
    hide NextStore, Snapshot, Sorting.SortBy, Owed, Gids, Selects, Ordinary, Typed;
    if Actor(s) == Some(i) {
      assert w.attempts[i] in w.attempts;
      assert t.attempts[i] == NextAttempt(d, w, s, w.attempts[i]);
    }
  }

  lemma {:induction false} SnapshotsStayLogged(d: Deployment, run: seq<World>, steps: seq<Step>, m: nat, i: nat)
    requires IsRun(d, run, steps) && m < |run| && i < |run[m].attempts|
    ensures StillLogged(d.names, run[m].store, run[m].attempts[i])
  {
    hide Took, Initial, Logged, Snapshot, Extends, Typed, StillLogged;
    StartsEmpty(d, run[0]);
    var w, s, t := run[m - 1], steps[m - 1], run[m];
    assert Took(d, w, s, t);
    StoreOnlyGrows(d, run, steps, m - 1, m);
    SnapshotStep(d, w, s, t, i);
    if i < |w.attempts| {
      SnapshotsStayLogged(d, run, steps, m - 1, i);
    }
    SnapshotAfter(d, w, s, t, i);
  }

  lemma SnapshotAfter(d: Deployment, w: World, s: Step, t: World, i: nat)
    requires Extends(w.store, t.store) && i < |t.attempts|
    requires i < |w.attempts| ==> StillLogged(d.names, w.store, w.attempts[i]) && t.attempts[i].c == w.attempts[i].c
    requires i < |w.attempts| && s != ReadSnapshot(i) ==> t.attempts[i].snapshot == w.attempts[i].snapshot
    requires i >= |w.attempts| ==> t.attempts[i].snapshot == []
    requires s == ReadSnapshot(i) ==>
      Typed(w.store, d.names) && t.attempts[i].c.names == d.names
        && t.attempts[i].snapshot == Snapshot(t.attempts[i].c, w.store)
    ensures StillLogged(d.names, t.store, t.attempts[i])
  {
    hide Logged, Extends, Snapshot, Typed;
    if s == ReadSnapshot(i) {
      ReadIsLogged(t.attempts[i], w.store, d.names);
      StaysLogged(d.names, w.store, t.store, t.attempts[i]);
    } else if i < |w.attempts| {
      StaysLogged(d.names, w.store, t.store, w.attempts[i]);
    }
  }

  // ------------------------------------------------------------------
  // Finality of an attempt among others
  // ------------------------------------------------------------------

  /** Nothing was granted on the work since the attempt read its snapshot. */
  ghost predicate NoGrantSince(a: Attempt, s: Store) {
    forall e :: Logged(a.c.names, s, e) && e.workId == a.c.workId && e.kind == Granted ==> e in a.snapshot
  }

  /** `f` stands under the id with which the attempt's operation terminates its grant. */
  predicate EndsItsGrant(a: Attempt, s: Store, f: GrantEvent) {
    Logged(a.c.names, s, f) && f.eventId == EffectId(a.c.h, a.c.operationId, f.grantId, REVOKED_EVENT)
  }

  /**
   * What terminates a selected grant under the operation is dated after every granting the attempt read. A clock that
   * ran backwards breaks this, and so does a retry after a re-grant: the event under the operation's id is then the
   * older one, whatever the clock.
   */
  ghost predicate ClocksKept(a: Attempt, s: Store) {
    forall e, f :: EndsItsGrant(a, s, f) && GrantingOf(a, e, f.grantId) ==> e.issuedAt < f.issuedAt
  }

  /** `e` is a granting the attempt read, of a grant it selected. */
  predicate GrantingOf(a: Attempt, e: GrantEvent, gid: string) {
    e in a.snapshot && e.kind == Granted && e.grantId == gid && Selects(a, gid)
  }

  /** None of the grants the attempt selected folds to active any more. */
  ghost predicate SelectedEnded(a: Attempt, s: Store)
    requires Typed(s, a.c.names)
  {
    forall gid :: Selects(a, gid) ==> Resolved(gid, None, Snapshot(a.c, s)).status != Active
  }

  /** The fold of a smaller log that still holds the last event ends in that event. */
  lemma LastOfFewer(log: seq<GrantEvent>, fewer: seq<GrantEvent>, gid: string, g: GrantEvent)
    requires IsLast(log, gid, None, g) && g in fewer && (forall e :: e in fewer ==> e in log) && UniqueIds(log)
    ensures IsLast(fewer, gid, None, g) && UniqueIds(fewer)
  {
    hide KeyLeq;
  }

  /** What the attempt read, inside what is logged now. */
  lemma ReadIsWithin(a: Attempt, s: Store)
    requires Typed(s, a.c.names) && StillLogged(a.c.names, s, a) && NoGrantSince(a, s)
    ensures forall e :: e in a.snapshot ==> e in Snapshot(a.c, s)
    ensures forall e :: e in Snapshot(a.c, s) && e.kind == Granted ==> e in a.snapshot
  {
    hide Logged, Typed, Snapshot;
    forall e ensures e in Snapshot(a.c, s) <==> Logged(a.c.names, s, e) && e.workId == a.c.workId {
      SnapshotMembers(a.c, s, e);
    }
  }

  /** With no grant since, the use is withdrawn from everyone if and only if every selected grant has ended. */
  lemma WithdrawnIffSelectedEnded(a: Attempt, s: Store, o: Orders)
    requires Typed(s, a.c.names) && Premises(a.c, s) && ValidLog(a.c, o, s) && ValidOrders(o) && a.c.order == o.use
    requires StillLogged(a.c.names, s, a) && NoGrantSince(a, s)
    ensures WithdrawnForAll(a.c, o, s, a.at) <==> SelectedEnded(a, s)
  {
    hide *;
    if SelectedEnded(a, s) {
      forall counterpartyId, t | a.at <= t
        ensures Withdrawn(a.c, o, View(a.c.names, s, a.c.workId, counterpartyId), None, t)
      {
        EndedMeansWithdrawn(a, s, o, counterpartyId, t);
      }
      AllWithdrawn(a.c, o, s, a.at);
    } else {
      var gid := NotEnded(a, s);
      ActiveMeansPermitted(a, s, o, gid);
    }
  }

  lemma AllWithdrawn(c: Config, o: Orders, s: Store, at: Instant)
    requires Typed(s, c.names)
    requires forall counterpartyId, t :: at <= t ==>
      Withdrawn(c, o, View(c.names, s, c.workId, counterpartyId), None, t)
    ensures WithdrawnForAll(c, o, s, at)
  {
    hide Withdrawn, View, Typed;
  }

  lemma NotEnded(a: Attempt, s: Store) returns (gid: string)
    requires Typed(s, a.c.names) && !SelectedEnded(a, s)
    ensures Selects(a, gid) && Resolved(gid, None, Snapshot(a.c, s)).status == Active
  {
    hide Typed, Selects, Snapshot, Resolved;
    gid :| Selects(a, gid) && Resolved(gid, None, Snapshot(a.c, s)).status == Active;
  }

  lemma EndedMeansWithdrawn(a: Attempt, s: Store, o: Orders, counterpartyId: string, t: Instant)
    requires Typed(s, a.c.names) && Premises(a.c, s) && ValidOrders(o) && a.c.order == o.use && a.at <= t
    requires StillLogged(a.c.names, s, a) && NoGrantSince(a, s) && SelectedEnded(a, s)
    ensures Withdrawn(a.c, o, View(a.c.names, s, a.c.workId, counterpartyId), None, t)
  {
    ReadIsWithin(a, s);
    ViewsOf(a.c, s, counterpartyId);
    hide Logged, Typed, Snapshot, View, ActiveGrants, Resolved, UniqueIds, Premises, StillLogged, NoGrantSince, IsLast,
         Admits, ValidOrders, Selected;
    var view := View(a.c.names, s, a.c.workId, counterpartyId);
    forall req: Scope, g | ValidScope(o, req) && Contains(o.use, req.useType, a.c.useType)
      && g in ActiveGrants(view, None)
      ensures !Admits(o, g.scope, req, t)
    {
      LastForReader(a.c, s, counterpartyId, g);
      LastIsMember(Snapshot(a.c, s), g);
      LastOfFewer(Snapshot(a.c, s), a.snapshot, g.grantId, g);
      UnselectedCannotAdmit(a.c, o, a.snapshot, a.at, t, g, req);
    }
  }

  lemma LastIsMember(log: seq<GrantEvent>, g: GrantEvent)
    requires IsLast(log, g.grantId, None, g)
    ensures g in log
  {
  }

  lemma ActiveMeansPermitted(a: Attempt, s: Store, o: Orders, gid: string)
    requires Typed(s, a.c.names) && Premises(a.c, s) && ValidLog(a.c, o, s) && ValidOrders(o) && a.c.order == o.use
    requires StillLogged(a.c.names, s, a) && NoGrantSince(a, s)
    requires Selects(a, gid) && Resolved(gid, None, Snapshot(a.c, s)).status == Active
    ensures !WithdrawnForAll(a.c, o, s, a.at)
  {
    var g := SelectedLast(a, s, gid);
    hide *;
    SnapshotMembers(a.c, s, g);
    LastSeen(a.c, s, g);
    OwnScopeAdmitted(a.c, o, s, s, a.at, g);
  }

  /** The event that keeps a selected grant active is the granting the attempt read, and it is wide enough. */
  lemma SelectedLast(a: Attempt, s: Store, gid: string) returns (g: GrantEvent)
    requires Typed(s, a.c.names) && Premises(a.c, s) && StillLogged(a.c.names, s, a) && NoGrantSince(a, s)
    requires Selects(a, gid) && Resolved(gid, None, Snapshot(a.c, s)).status == Active
    ensures g.grantId == gid && g in Snapshot(a.c, s) && IsLast(Snapshot(a.c, s), g.grantId, None, g)
    ensures g.kind == Granted
    ensures Contains(a.c.order, g.scope.useType, a.c.useType) && !ScopeWindowHasClosed(g.scope, a.at)
  {
    ReadIsWithin(a, s);
    ViewsOf(a.c, s, "");
    hide Logged, Typed, Snapshot, View, Resolved, UniqueIds, Premises, StillLogged, NoGrantSince, KeyLeq, Contains,
         ScopeWindowHasClosed;
    var log := Snapshot(a.c, s);
    ActiveIff(gid, None, log);
    g :| IsLast(log, gid, None, g) && g.kind == Granted;
    LastOfFewer(log, a.snapshot, gid, g);
    LastEventWins(gid, None, a.snapshot, g);
  }

  /** A grant whose last event is a granting is active for the reader of its counterparty. */
  lemma LastSeen(c: Config, s: Store, g: GrantEvent)
    requires Typed(s, c.names) && Premises(c, s)
    requires IsLast(Snapshot(c, s), g.grantId, None, g) && g.kind == Granted
    ensures g in ActiveGrants(View(c.names, s, c.workId, g.counterpartyId), None)
  {
    hide Typed, Premises, Snapshot, IsLast, ActiveGrants, View, Written;
    assert Written(s, c.names.grants) == Written(s, c.names.grants) + EventEntries([]);
    StillActive(c, s, s, [], g);
  }

  /** A finished attempt's selected grants have ended, when its ids are its own and the clocks kept order. */
  lemma FinishedSelectedEnded(d: Deployment, run: seq<World>, steps: seq<Step>, m: nat, i: nat)
    requires IsRun(d, run, steps) && m < |run| && Attempting(run[m], i, Finished)
    requires var a, s := run[m].attempts[i], run[m].store;
      && a.c.names == d.names && a.c.h == d.h && Typed(s, a.c.names) && Premises(a.c, s) && NoGrantSince(a, s)
      && ClocksKept(a, s)
      && forall gid :: Selects(a, gid) ==> !Foreign(d, s, a.c.operationId, gid)
    ensures SelectedEnded(run[m].attempts[i], run[m].store)
  {
    var a, s := run[m].attempts[i], run[m].store;
    SnapshotsStayLogged(d, run, steps, m, i);
    hide IsRun, Premises, NoGrantSince, ClocksKept, Foreign, Selects, Typed, Resolved, Snapshot, StillLogged,
         Terminated, OwnNotice;
    forall gid | Selects(a, gid) ensures Resolved(gid, None, Snapshot(a.c, s)).status != Active {
      FinishedAttemptIsComplete(d, run, steps, m, i, gid);
      TerminatedIsNotActive(d, a, s, gid);
    }
  }

  lemma TerminatedIsNotActive(d: Deployment, a: Attempt, s: Store, gid: string)
    requires a.c.names == d.names && a.c.h == d.h && Typed(s, a.c.names) && Premises(a.c, s) && NoGrantSince(a, s)
    requires ClocksKept(a, s)
    requires StillLogged(a.c.names, s, a) && Selects(a, gid) && Terminated(d, s, a.c.operationId, gid)
    ensures Resolved(gid, None, Snapshot(a.c, s)).status != Active
  {
    ReadIsWithin(a, s);
    ViewsOf(a.c, s, "");
    var f := StoredTermination(d, s, a.c.operationId, gid);
    hide Typed, Snapshot, View, Resolved, UniqueIds, StillLogged, NoGrantSince, Selects, Terminated, EffectId, Logged;
    var log := Snapshot(a.c, s);
    ActiveIff(gid, None, log);
    if g :| IsLast(log, gid, None, g) && g.kind == Granted {
      SnapshotMembers(a.c, s, g);
      SnapshotMembers(a.c, s, f);
      assert GrantingOf(a, g, gid) && EndsItsGrant(a, s, f);
      assert g.issuedAt < f.issuedAt;
      NotLastBehind(log, None, f, g);
    }
  }

  lemma StoredTermination(d: Deployment, s: Store, op: string, gid: string) returns (f: GrantEvent)
    requires Terminated(d, s, op, gid)
    ensures Logged(d.names, s, f) && f.kind == Revoked && f.grantId == gid
    ensures f.eventId == EffectId(d.h, op, gid, REVOKED_EVENT)
  {
    hide EffectId;
    var b := Written(s, d.names.grants);
    f :| EventEntry(f) in b && f.eventId == EffectId(d.h, op, gid, REVOKED_EVENT) && f.kind == Revoked
      && f.grantId == gid;
    var i :| 0 <= i < |b| && b[i] == EventEntry(f);
    assert DocsOf(b)[i] == GrantDoc(f);
  }

  /**
   * Finality over runs. However attempts interleave, stop and are retried under the same operation id: once one has
   * finished, in every state from then on in which nothing was granted on the work since its snapshot, no one may use
   * what was revoked, provided no overlapping operation's row stands under its ids and what terminated the grants is
   * dated after what it read.
   */
  lemma FinalityOverRuns(d: Deployment, run: seq<World>, steps: seq<Step>, m: nat, i: nat, o: Orders)
    requires IsRun(d, run, steps) && m < |run| && Attempting(run[m], i, Finished)
    requires var a, s := run[m].attempts[i], run[m].store;
      && ValidOrders(o) && d.order == o.use && Premises(a.c, s) && ValidLog(a.c, o, s)
      && NoGrantSince(a, s) && ClocksKept(a, s)
      && forall gid :: Selects(a, gid) ==> !Foreign(d, s, a.c.operationId, gid)
    ensures Typed(run[m].store, run[m].attempts[i].c.names)
    ensures WithdrawnForAll(run[m].attempts[i].c, o, run[m].store, run[m].attempts[i].at)
  {
    var a, s := run[m].attempts[i], run[m].store;
    EveryStateIsInOrder(d, run, steps, m);
    InOrderParts(d, run[m]);
    AttemptIsOfDeployment(d, run[m], i);
    hide *;
    FinishedSelectedEnded(d, run, steps, m, i);
    SnapshotsStayLogged(d, run, steps, m, i);
    WithdrawnIffSelectedEnded(a, s, o);
  }

  lemma AttemptIsOfDeployment(d: Deployment, w: World, i: nat)
    requires Inv(d, w) && i < |w.attempts|
    ensures w.attempts[i].c.names == d.names && w.attempts[i].c.h == d.h && w.attempts[i].c.order == d.order
  {
    hide StoreOk;
    assert w.attempts[i] in w.attempts;
    assert AttemptOk(d, w.store, w.attempts[i]);
  }
}
