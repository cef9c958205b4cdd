/**
 * Runs whose operation ids hold no colon: a condition on what callers send, from which delivery and finality follow.
 */
module ColonFreeRuns {
  import opened Scopes
  import opened Resolver
  import opened Evaluator
  import opened Effects
  import opened Gateway
  import opened Cascade
  import opened CascadeTheorems
  import opened CascadeMachine
  import opened RunFinality
  import opened TimedRuns
  import Sorting

  /** Every attempt of the run was started under an operation id without a colon. */
  ghost predicate ColonFreeStarts(steps: seq<Step>) {
    forall k :: 0 <= k < |steps| && steps[k].Start? ==> ColonFree(steps[k].c.operationId)
  }

  // ------------------------------------------------------------------
  // Rows come from attempts
  // ------------------------------------------------------------------

  /** The operation has an attempt that is past its beginning. */
  ghost predicate HasWorked(w: World, op: string) {
    exists i :: 0 <= i < |w.attempts| && w.attempts[i].c.operationId == op && w.attempts[i].stage != Begun
  }

  ghost predicate RowsAreWorked(d: Deployment, w: World) {
    forall r :: RowEntry(r) in Written(w.store, d.names.outbox) ==> HasWorked(w, r.operationId)
  }

  lemma CreateKeepsRows(d: Deployment, w: World, x: Write, r: OutboxRow)
    requires x.collection != d.names.outbox && RowEntry(r) in Written(CreateAll(w.store, [x]), d.names.outbox)
    ensures RowEntry(r) in Written(w.store, d.names.outbox)
  {
    hide CreateAll, Written;
    OneCreate(w.store, x);
  }

  lemma CommitAddsOwnRow(d: Deployment, w: World, i: nat, r: OutboxRow)
    requires Inv(d, w) && Enabled(d, w, CommitPair(i))
    requires RowEntry(r) in Written(NextStore(d, w, CommitPair(i)), d.names.outbox)
    ensures RowEntry(r) in Written(w.store, d.names.outbox) || r.operationId == w.attempts[i].c.operationId
  {
    var a := w.attempts[i];
    AttemptIsOfDeployment(d, w, i);
    assert Distinct(d.names);
    var st := Resolved(Gids(a.snapshot)[a.next], None, a.snapshot);
    hide Inv, Resolved, Gids, EffectId, CreateAll, Pair, Clear, Written;
    PairGrows(a.c, w.store, st, a.draft.value);
    EntriesOfOne(RevokedEventFor(a.c, st, a.draft.value), RowFor(a.c, st, a.draft.value));
  }

  /** A row after a step was there before, or is of the operation whose attempt committed. */
  lemma RowStep(d: Deployment, w: World, s: Step, t: World, r: OutboxRow)
    requires Inv(d, w) && Took(d, w, s, t) && RowEntry(r) in Written(t.store, d.names.outbox)
    ensures RowEntry(r) in Written(w.store, d.names.outbox)
      || (s.CommitPair? && s.i < |w.attempts| && w.attempts[s.i].stage != Begun
          && r.operationId == w.attempts[s.i].c.operationId)
  {
    assert Distinct(d.names);
    hide Inv, CreateAll, Written, Ordinary, Resolved, Gids, Pair, Selects;
    match s
    case CommitPair(i) => CommitAddsOwnRow(d, w, i, r);
    case Deliver(i) =>
      AttemptIsOfDeployment(d, w, i);
      CreateKeepsRows(d, w, NoticeWrite(w.attempts[i].c, w.attempts[i].rows[w.attempts[i].sent]), r);
    case LogEvent(e) => CreateKeepsRows(d, w, Write(d.names.grants, e.eventId, GrantDoc(e)), r);
    case WriteElsewhere(x) => CreateKeepsRows(d, w, x, r);
    case _ =>
  }

  /** An attempt keeps its operation and, once past its beginning, stays past it. */
  lemma AttemptAfter(d: Deployment, w: World, s: Step, t: World, i: nat)
    requires Took(d, w, s, t) && i < |w.attempts|
    ensures i < |t.attempts| && t.attempts[i].c == w.attempts[i].c
    ensures w.attempts[i].stage != Begun ==> t.attempts[i].stage != Begun
  {
    hide NextStore, Snapshot, Sorting.SortBy, Owed, Gids, Selects, Ordinary, Typed;
    if Actor(s) == Some(i) {
      assert t.attempts[i] == NextAttempt(d, w, s, w.attempts[i]);
    }
  }

  lemma WorkStays(d: Deployment, w: World, s: Step, t: World, op: string)
    requires Took(d, w, s, t) && HasWorked(w, op)
    ensures HasWorked(t, op)
  {
    hide Took;
    var i :| 0 <= i < |w.attempts| && w.attempts[i].c.operationId == op && w.attempts[i].stage != Begun;
    AttemptAfter(d, w, s, t, i);
  }

  lemma StepKeepsRowsWorked(d: Deployment, w: World, s: Step, t: World)
    requires Inv(d, w) && Took(d, w, s, t) && RowsAreWorked(d, w)
    ensures RowsAreWorked(d, t)
  {
    hide Inv, Took, Written, RowEntry;
    forall r | RowEntry(r) in Written(t.store, d.names.outbox) ensures HasWorked(t, r.operationId) {
      RowStep(d, w, s, t, r);
      WorkStays(d, w, s, t, r.operationId);
    }
  }

  lemma {:induction false} EveryRowIsWorked(d: Deployment, run: seq<World>, steps: seq<Step>, k: nat)
    requires IsRun(d, run, steps) && k < |run|
    ensures RowsAreWorked(d, run[k])
  {
    if k > 0 {
      EveryRowIsWorked(d, run, steps, k - 1);
      EveryStateIsInOrder(d, run, steps, k - 1);
      hide Inv, Took, Initial, RowsAreWorked;
      assert Took(d, run[k - 1], steps[k - 1], run[k]);
      StepKeepsRowsWorked(d, run[k - 1], steps[k - 1], run[k]);
    }
  }

  // ------------------------------------------------------------------
  // No two operations overlap
  // ------------------------------------------------------------------

  ghost predicate AllColonFree(w: World) {
    forall i :: 0 <= i < |w.attempts| ==> ColonFree(w.attempts[i].c.operationId)
  }

  lemma StepKeepsColonFree(d: Deployment, w: World, s: Step, t: World)
    requires Took(d, w, s, t) && AllColonFree(w) && (s.Start? ==> ColonFree(s.c.operationId))
    ensures AllColonFree(t)
  {
    hide NextStore, Snapshot, Sorting.SortBy, Owed, Gids, Selects, Ordinary, Typed, ColonFree;
    forall i | 0 <= i < |t.attempts| ensures ColonFree(t.attempts[i].c.operationId) {
      if i < |w.attempts| {
        AttemptAfter(d, w, s, t, i);
      }
    }
  }

  lemma {:induction false} EveryAttemptIsColonFree(d: Deployment, run: seq<World>, steps: seq<Step>, k: nat)
    requires IsRun(d, run, steps) && ColonFreeStarts(steps) && k < |run|
    ensures AllColonFree(run[k])
  {
    hide Took, Initial, ColonFree;
    if k == 0 {
      StartsEmpty(d, run[0]);
    } else {
      EveryAttemptIsColonFree(d, run, steps, k - 1);
      assert Took(d, run[k - 1], steps[k - 1], run[k]);
      StepKeepsColonFree(d, run[k - 1], steps[k - 1], run[k]);
    }
  }

  /**
   * In every state of such a run no row of another operation overlaps an attempt's: a colon is the only way to collide.
   */
  lemma ColonFreeRunsAreSeparated(d: Deployment, run: seq<World>, steps: seq<Step>, k: nat, op: string)
    requires IsRun(d, run, steps) && ColonFreeStarts(steps) && k < |run| && ColonFree(op)
    ensures SeparatedFrom(d, run[k].store, op)
  {
    EveryRowIsWorked(d, run, steps, k);
    EveryAttemptIsColonFree(d, run, steps, k);
    hide IsRun, ColonFreeStarts, ColonFree, MayCollide, Written, RowEntry;
    forall r | RowEntry(r) in Written(run[k].store, d.names.outbox) && r.operationId != op
      ensures !MayCollide(op, r.operationId)
    {
      var i :| 0 <= i < |run[k].attempts| && run[k].attempts[i].c.operationId == r.operationId
        && run[k].attempts[i].stage != Begun;
      ColonFreeOperationsNeverCollide(op, r.operationId);
    }
  }

  // ------------------------------------------------------------------
  // Delivery and finality
  // ------------------------------------------------------------------

  /** In such a run a finished attempt has terminated and notified every grant it selected. */
  lemma ColonFreeAttemptDelivers(d: Deployment, run: seq<World>, steps: seq<Step>, m: nat, i: nat, gid: string)
    requires IsRun(d, run, steps) && ColonFreeStarts(steps) && m < |run| && Attempting(run[m], i, Finished)
    requires Selects(run[m].attempts[i], gid)
    ensures Terminated(d, run[m].store, run[m].attempts[i].c.operationId, gid)
    ensures OwnNotice(d, run[m].store, run[m].attempts[i].c.operationId, gid)
  {
    EveryAttemptIsColonFree(d, run, steps, m);
    hide IsRun, ColonFreeStarts, Selects, Terminated, OwnNotice, SeparatedFrom, ColonFree;
    ColonFreeRunsAreSeparated(d, run, steps, m, run[m].attempts[i].c.operationId);
    SeparatedAttemptDelivers(d, run, steps, m, i, gid);
  }

  /** No other attempt carries the attempt's operation id. */
  predicate DrawnFresh(w: World, i: nat)
    requires i < |w.attempts|
  {
    forall x :: 0 <= x < |w.attempts| && x != i ==> w.attempts[x].c.operationId != w.attempts[i].c.operationId
  }

  lemma DrawnFreshIsFirst(d: Deployment, run: seq<World>, steps: seq<Step>, j: nat, i: nat)
    requires IsRun(d, run, steps) && ColonFreeStarts(steps) && j < |steps| && steps[j] == ReadSnapshot(i)
    requires i < |run[j].attempts| && DrawnFresh(run[j], i)
    ensures FirstOfItsOperation(d, run[j], i, run[j].attempts[i].c.operationId)
  {
    ReadBegan(d, run, steps, j, i);
    EveryRowIsWorked(d, run, steps, j);
    EveryAttemptIsColonFree(d, run, steps, j);
    hide IsRun, ColonFreeStarts, ColonFree, MayCollide, Written, RowEntry;
    var w, op := run[j], run[j].attempts[i].c.operationId;
    forall x | 0 <= x < |w.attempts| && x != i ensures !MayCollide(op, w.attempts[x].c.operationId) {
      ColonFreeOperationsNeverCollide(op, w.attempts[x].c.operationId);
    }
    forall r | RowEntry(r) in Written(w.store, d.names.outbox) ensures !MayCollide(op, r.operationId) {
      var x :| 0 <= x < |w.attempts| && w.attempts[x].c.operationId == r.operationId && w.attempts[x].stage != Begun;
      ColonFreeOperationsNeverCollide(op, r.operationId);
    }
  }

  /**
   * In such a run on a clock, the first attempt of an operation is final once it finished: in every later state without
   * a new grant on the work since it read the log, for every counterparty, every as-of instant from its end on (or
   * none) and every instant from its own on, nobody may use what was revoked.
   */
  lemma ColonFreeFinality(d: Deployment, run: seq<World>, steps: seq<Step>, clocks: seq<Instant>, j: nat, f: nat,
                          m: nat, i: nat, o: Orders, counterpartyId: string, asOf: Option<Instant>, t: Instant)
    requires IsTimed(d, run, steps, clocks) && ColonFreeStarts(steps)
    requires j < f <= m < |run| && steps[j] == ReadSnapshot(i) && Attempting(run[f], i, Finished)
    requires i < |run[j].attempts| && DrawnFresh(run[j], i) && ValidOrders(o) && d.order == o.use
    requires Premises(run[f].attempts[i].c, run[m].store) && NoGrantSince(run[f].attempts[i], run[m].store)
    requires run[f].attempts[i].at <= t && (asOf.Some? ==> clocks[f] <= asOf.value)
    ensures Typed(run[m].store, run[f].attempts[i].c.names)
    ensures var c := run[f].attempts[i].c;
      Withdrawn(c, o, View(c.names, run[m].store, c.workId, counterpartyId), asOf, t)
  {
    assert IsRun(d, run, steps);
    ReadIsKept(d, run, steps, j, f, i);
    assert run[f].attempts[i].c == run[j].attempts[i].c;
    EveryAttemptIsColonFree(d, run, steps, f);
    assert ColonFree(run[f].attempts[i].c.operationId);
    hide *;
    DrawnFreshIsFirst(d, run, steps, j, i);
    ColonFreeRunsAreSeparated(d, run, steps, f, run[f].attempts[i].c.operationId);
    FreshOperationIsOwn(d, run, steps, j, f, i);
    FinalityOnAClock(d, run, steps, clocks, j, f, m, i, o, counterpartyId, asOf, t);
  }
}
