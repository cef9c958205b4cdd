/**
 * Lease fencing as interleaved steps: supervisors dispatch, decide and stop; workers ask, are checked and commit.
 * The lease check and the commit are separate steps, and any worker may present any lease id at any time.
 */
module Fencing {
  import opened Scopes
  import opened Lease

  /** How a supervised call ends for its caller. */
  datatype Ending = DeadlineTimeout | WorkerError | Success

  datatype Phase =
    | Running
    | Stopping(stop: LeaseEvent, ending: Ending)
    | Stopped(ending: Ending)
    | Reported(ending: Ending)

  datatype Task = Task(agentId: string, leaseId: string, phase: Phase)

  datatype Progress = Asked | Passed | Refused | Committed

  /** A write on its way: the instant its check reads the clock, and how much of the ledger the check saw. */
  datatype InFlight = InFlight(leaseId: string, at: Instant, seen: nat, progress: Progress)

  datatype World = World(ledger: seq<LeaseEvent>, clock: Instant, tasks: seq<Task>, writes: seq<InFlight>)

  datatype Step =
    | Dispatch(agentId: string, taskId: string, leaseId: string, eventId: string, ttl: int, tick: int)
    | Ask(leaseId: string, tick: int)
    | Check(k: nat)
    | Commit(k: nat)
    | Decide(i: nat, ending: Ending, eventId: string, reason: string, tick: int)
    | AppendStop(i: nat)
    | Report(i: nat)

  predicate InProgress(w: World, k: nat, p: Progress) {
    k < |w.writes| && w.writes[k].progress == p
  }

  predicate Unused(w: World, leaseId: string) {
    && (forall e :: e in w.ledger ==> e.leaseId != leaseId)
    && (forall t :: t in w.tasks ==> t.leaseId != leaseId)
  }

  ghost predicate Enabled(w: World, s: Step) {
    match s
    case Dispatch(_, _, leaseId, eventId, _, tick) => tick > 0 && !HasEvent(w.ledger, eventId) && Unused(w, leaseId)
    case Ask(_, tick) => tick > 0
    case Check(k) => InProgress(w, k, Asked)
    case Commit(k) => InProgress(w, k, Passed)
    case Decide(i, _, _, _, tick) => tick > 0 && i < |w.tasks| && w.tasks[i].phase.Running?
    case AppendStop(i) => i < |w.tasks| && w.tasks[i].phase.Stopping?
      && !HasEvent(w.ledger, w.tasks[i].phase.stop.eventId)
    case Report(i) => i < |w.tasks| && w.tasks[i].phase.Stopped?
  }

  function StopEvent(ledger: seq<LeaseEvent>, leaseId: string, ending: Ending, eventId: string, reason: string,
                     now: Instant): LeaseEvent {
    if ending.Success? then ReleasedEvent(ledger, eventId, leaseId, now)
    else RevokedEvent(ledger, eventId, leaseId, reason, now)
  }

  function Checked(ledger: seq<LeaseEvent>, f: InFlight): InFlight {
    f.(seen := |ledger|, progress := if IsActive(ledger, f.leaseId, f.at) then Passed else Refused)
  }

  ghost function Next(w: World, s: Step): World
    requires Enabled(w, s)
  {
    match s
    case Dispatch(agentId, taskId, leaseId, eventId, ttl, tick) =>
      var now := w.clock + tick;
      w.(clock := now, ledger := w.ledger + [IssuedEvent(eventId, leaseId, agentId, taskId, ttl, now)],
         tasks := w.tasks + [Task(agentId, leaseId, Running)])
    case Ask(leaseId, tick) =>
      w.(clock := w.clock + tick, writes := w.writes + [InFlight(leaseId, w.clock + tick, 0, Asked)])
    case Check(k) => w.(writes := w.writes[k := Checked(w.ledger, w.writes[k])])
    case Commit(k) => w.(writes := w.writes[k := w.writes[k].(progress := Committed)])
    case Decide(i, ending, eventId, reason, tick) =>
      var now := w.clock + tick;
      var stop := StopEvent(w.ledger, w.tasks[i].leaseId, ending, eventId, reason, now);
      w.(clock := now, tasks := w.tasks[i := w.tasks[i].(phase := Stopping(stop, ending))])
    case AppendStop(i) =>
      w.(ledger := w.ledger + [w.tasks[i].phase.stop],
         tasks := w.tasks[i := w.tasks[i].(phase := Stopped(w.tasks[i].phase.ending))])
    case Report(i) => w.(tasks := w.tasks[i := w.tasks[i].(phase := Reported(w.tasks[i].phase.ending))])
  }

  // ------------------------------------------------------------------
  // The invariant
  // ------------------------------------------------------------------

  /** A stop of the lease is in the ledger. */
  ghost predicate HasStop(ledger: seq<LeaseEvent>, leaseId: string) {
    exists e :: e in ledger && e.leaseId == leaseId && e.kind != Issued
  }

  ghost predicate TaskOk(ledger: seq<LeaseEvent>, t: Task) {
    match t.phase
    case Running => !HasStop(ledger, t.leaseId)
    case Stopping(stop, _) => !HasStop(ledger, t.leaseId) && stop.leaseId == t.leaseId && stop.kind != Issued
      && Follows(ledger, stop)
    case Stopped(_) => HasStop(ledger, t.leaseId)
    case Reported(_) => HasStop(ledger, t.leaseId)
  }

  /** A write that passed its check passed while its lease folded to active. */
  ghost predicate WriteOk(ledger: seq<LeaseEvent>, f: InFlight) {
    f.progress == Passed || f.progress == Committed ==>
      f.seen <= |ledger| && IsActive(ledger[..f.seen], f.leaseId, f.at)
  }

  ghost predicate DistinctLeases(tasks: seq<Task>) {
    forall i, j :: 0 <= i < j < |tasks| ==> tasks[i].leaseId != tasks[j].leaseId
  }

  ghost predicate Inv(w: World) {
    && Disciplined(w.ledger) && DistinctLeases(w.tasks)
    && (forall e :: e in w.ledger ==> e.issuedAt <= w.clock)
    && (forall t :: t in w.tasks ==> TaskOk(w.ledger, t))
    && (forall t :: t in w.tasks && t.phase.Stopping? ==> t.phase.stop.issuedAt <= w.clock)
    && (forall f :: f in w.writes ==> WriteOk(w.ledger, f))
  }

  lemma WriteOkPersists(ledger: seq<LeaseEvent>, longer: seq<LeaseEvent>, f: InFlight)
    requires WriteOk(ledger, f) && ledger <= longer
    ensures WriteOk(longer, f)
  {
    if f.seen <= |ledger| {
      assert longer[..f.seen] == ledger[..f.seen];
    }
  }

  /** Other tasks are untouched by an event of another lease. */
  lemma TaskOkPersists(ledger: seq<LeaseEvent>, e: LeaseEvent, t: Task)
    requires TaskOk(ledger, t) && t.leaseId != e.leaseId
    ensures TaskOk(ledger + [e], t)
  {
    assert HasStop(ledger, t.leaseId) ==> HasStop(ledger + [e], t.leaseId);
  }

  lemma StepKeepsInv(w: World, s: Step)
    requires Inv(w) && Enabled(w, s)
    ensures Inv(Next(w, s)) && w.ledger <= Next(w, s).ledger
  {
    match s {
      case Dispatch(agentId, taskId, leaseId, eventId, ttl, tick) => DispatchKeeps(w, s);
      case AppendStop(i) => AppendKeeps(w, s, i);
      case Decide(i, _, _, _, _) => DecideKeeps(w, s, i);
      case Report(i) => ReportKeeps(w, s, i);
      case Ask(_, _) => WriteKeeps(w, s);
      case Check(_) => WriteKeeps(w, s);
      case Commit(_) => WriteKeeps(w, s);
    }
  }

  lemma WriteKeeps(w: World, s: Step)
    requires Inv(w) && Enabled(w, s) && (s.Ask? || s.Check? || s.Commit?)
    ensures Inv(Next(w, s))
  {
    hide TaskOk, Disciplined, DistinctLeases, IsActive;
    assert w.ledger[..|w.ledger|] == w.ledger;
    if s.Check? || s.Commit? {
      assert w.writes[s.k] in w.writes;
    }
  }

  lemma DispatchKeeps(w: World, s: Step)
    requires Inv(w) && Enabled(w, s) && s.Dispatch?
    ensures Inv(Next(w, s))
  {
    hide WriteOk, HasEvent;
    var e := IssuedEvent(s.eventId, s.leaseId, s.agentId, s.taskId, s.ttl, w.clock + s.tick);
    DisciplineKept(w.ledger, e);
    forall t | t in w.tasks ensures TaskOk(w.ledger + [e], t) {
      TaskOkPersists(w.ledger, e, t);
    }
    forall f | f in w.writes ensures WriteOk(w.ledger + [e], f) {
      WriteOkPersists(w.ledger, w.ledger + [e], f);
    }
    assert TaskOk(w.ledger + [e], Task(s.agentId, s.leaseId, Running));
  }

  lemma DecideKeeps(w: World, s: Step, i: nat)
    requires Inv(w) && Enabled(w, s) && s.Decide? && s.i == i
    ensures Inv(Next(w, s))
  {
    hide WriteOk, Disciplined, StateAt;
    var t := w.tasks[i];
    assert t in w.tasks && TaskOk(w.ledger, t);
    var stop := StopEvent(w.ledger, t.leaseId, s.ending, s.eventId, s.reason, w.clock + s.tick);
    assert Follows(w.ledger, stop);
    assert TaskOk(w.ledger, t.(phase := Stopping(stop, s.ending)));
  }

  lemma AppendKeeps(w: World, s: Step, i: nat)
    requires Inv(w) && Enabled(w, s) && s == AppendStop(i)
    ensures Inv(Next(w, s))
  {
    hide WriteOk, HasEvent;
    var t := w.tasks[i];
    assert t in w.tasks && TaskOk(w.ledger, t);
    var e := t.phase.stop;
    DisciplineKept(w.ledger, e);
    assert e in w.ledger + [e];
    assert HasStop(w.ledger + [e], t.leaseId);
    var tasks := Next(w, s).tasks;
    forall j | 0 <= j < |tasks| ensures TaskOk(w.ledger + [e], tasks[j]) {
      if j != i {
        assert w.tasks[j] in w.tasks;
        TaskOkPersists(w.ledger, e, w.tasks[j]);
      }
    }
    forall f | f in w.writes ensures WriteOk(w.ledger + [e], f) {
      WriteOkPersists(w.ledger, w.ledger + [e], f);
    }
  }

  lemma ReportKeeps(w: World, s: Step, i: nat)
    requires Inv(w) && Enabled(w, s) && s == Report(i)
    ensures Inv(Next(w, s))
  {
    hide WriteOk, Disciplined, HasStop;
    assert w.tasks[i] in w.tasks;
  }

  // ------------------------------------------------------------------
  // Runs
  // ------------------------------------------------------------------

  ghost predicate Took(w: World, s: Step, t: World) {
    Enabled(w, s) && t == Next(w, s)
  }

  ghost predicate IsRun(run: seq<World>, steps: seq<Step>) {
    && |run| == |steps| + 1 && run[0].ledger == [] && run[0].tasks == [] && run[0].writes == []
    && forall k :: 0 < k < |run| ==> Took(run[k - 1], steps[k - 1], run[k])
  }

  lemma {:induction false} EveryStateIsInOrder(run: seq<World>, steps: seq<Step>, m: nat)
    requires IsRun(run, steps) && m < |run|
    ensures Inv(run[m])
  {
    if m > 0 {
      EveryStateIsInOrder(run, steps, m - 1);
      hide Inv, Enabled, Next;
      assert Took(run[m - 1], steps[m - 1], run[m]);
      StepKeepsInv(run[m - 1], steps[m - 1]);
    }
  }

  lemma TookGrows(w: World, s: Step, t: World)
    requires Inv(w) && Took(w, s, t)
    ensures w.ledger <= t.ledger
  {
    hide Inv, Enabled, Next;
    StepKeepsInv(w, s);
  }

  lemma {:induction false} LedgerOnlyGrows(run: seq<World>, steps: seq<Step>, j: nat, m: nat)
    requires IsRun(run, steps) && j <= m < |run|
    ensures run[j].ledger <= run[m].ledger
  {
    hide Inv, Took;
    if j < m {
      LedgerOnlyGrows(run, steps, j, m - 1);
      EveryStateIsInOrder(run, steps, m - 1);
      assert Took(run[m - 1], steps[m - 1], run[m]);
      TookGrows(run[m - 1], steps[m - 1], run[m]);
      PrefixTransitive(run[j].ledger, run[m - 1].ledger, run[m].ledger);
    }
  }

  lemma PrefixTransitive(a: seq<LeaseEvent>, b: seq<LeaseEvent>, c: seq<LeaseEvent>)
    requires a <= b <= c
    ensures a <= c
  {
  }

  /** A stopped lease is active at no instant, whatever instant is asked about. */
  lemma StoppedIsNotActive(ledger: seq<LeaseEvent>, leaseId: string, at: Instant)
    requires Disciplined(ledger) && HasStop(ledger, leaseId)
    ensures !IsActive(ledger, leaseId, at)
  {
    hide IsActive, Disciplined;
    ActiveMeansOnlyIssued(ledger, leaseId, at);
    var e :| e in ledger && e.leaseId == leaseId && e.kind != Issued;
    assert e in EventsFor(ledger, leaseId);
  }

  lemma StopPersists(ledger: seq<LeaseEvent>, longer: seq<LeaseEvent>, leaseId: string)
    requires HasStop(ledger, leaseId) && ledger <= longer
    ensures HasStop(longer, leaseId)
  {
    var e :| e in ledger && e.leaseId == leaseId && e.kind != Issued;
    assert e in longer;
  }

  /** Every committed write passed a check taken while its lease folded to active, before any stop of that lease. */
  lemma CommittedWritesPassedWhileActive(run: seq<World>, steps: seq<Step>, m: nat, k: nat)
    requires IsRun(run, steps) && m < |run| && InProgress(run[m], k, Committed)
    ensures var f := run[m].writes[k];
      && f.seen <= |run[m].ledger| && IsActive(run[m].ledger[..f.seen], f.leaseId, f.at)
      && !HasStop(run[m].ledger[..f.seen], f.leaseId)
  {
    EveryStateIsInOrder(run, steps, m);
    var f := run[m].writes[k];
    assert f in run[m].writes && WriteOk(run[m].ledger, f);
    var seen := run[m].ledger[..f.seen];
    assert Disciplined(seen);
    if HasStop(seen, f.leaseId) {
      StoppedIsNotActive(seen, f.leaseId, f.at);
    }
  }

  /** A caller that has been told the outcome is told after the fence: the lease is dead then and ever after. */
  lemma NobodySeesAnEndingBeforeTheFence(run: seq<World>, steps: seq<Step>, m: nat, i: nat, later: nat, at: Instant)
    requires IsRun(run, steps) && m <= later < |run|
    requires i < |run[m].tasks| && run[m].tasks[i].phase.Reported?
    ensures !IsActive(run[later].ledger, run[m].tasks[i].leaseId, at)
  {
    EveryStateIsInOrder(run, steps, m);
    EveryStateIsInOrder(run, steps, later);
    LedgerOnlyGrows(run, steps, m, later);
    var t := run[m].tasks[i];
    assert t in run[m].tasks && TaskOk(run[m].ledger, t);
    StopPersists(run[m].ledger, run[later].ledger, t.leaseId);
    StoppedIsNotActive(run[later].ledger, t.leaseId, at);
  }

  /** The write is not yet past its check. */
  predicate NotPassed(w: World, k: nat) {
    k < |w.writes| ==> w.writes[k].progress == Asked || w.writes[k].progress == Refused
  }

  lemma LateStep(w: World, s: Step, t: World, k: nat, leaseId: string)
    requires Inv(w) && Took(w, s, t) && HasStop(w.ledger, leaseId) && NotPassed(w, k)
    requires k < |t.writes| && t.writes[k].leaseId == leaseId
    ensures NotPassed(t, k)
  {
    hide HasStop, IsActive;
    if s == Check(k) {
      StoppedIsNotActive(w.ledger, leaseId, w.writes[k].at);
    }
  }

  lemma WritesKeepTheirLease(w: World, s: Step, t: World, k: nat)
    requires Took(w, s, t) && k < |w.writes|
    ensures k < |t.writes| && t.writes[k].leaseId == w.writes[k].leaseId
  {
  }

  /** A write whose check had not been taken when its lease was stopped never commits. */
  lemma {:induction false} LateWritesNeverCommit(run: seq<World>, steps: seq<Step>, m: nat, k: nat, leaseId: string,
                                                 later: nat)
    requires IsRun(run, steps) && m <= later < |run| && HasStop(run[m].ledger, leaseId) && NotPassed(run[m], k)
    requires k < |run[later].writes| && run[later].writes[k].leaseId == leaseId
    ensures NotPassed(run[later], k)
  {
    if m < later {
      var w, s, t := run[later - 1], steps[later - 1], run[later];
      assert Took(w, s, t);
      EveryStateIsInOrder(run, steps, later - 1);
      LedgerOnlyGrows(run, steps, m, later - 1);
      StopPersists(run[m].ledger, w.ledger, leaseId);
      hide Inv, Enabled, Next, HasStop;
      if k < |w.writes| {
        WritesKeepTheirLease(w, s, t, k);
        LateWritesNeverCommit(run, steps, m, k, leaseId, later - 1);
      }
      LateStep(w, s, t, k, leaseId);
    }
  }

  // ------------------------------------------------------------------
  // The gap between check and commit
  // ------------------------------------------------------------------

  /** The run in which a checked write lands after the timeout is visible. */
  ghost function GapSteps(): seq<Step> {
    [Dispatch("agent", "task", "lease", "issue", 10, 1), Ask("lease", 1), Check(0),
     Decide(0, DeadlineTimeout, "stop", "deadline_exceeded", 1), AppendStop(0), Report(0), Commit(0)]
  }

  lemma JustIssuedIsActive(e: LeaseEvent, at: Instant)
    requires e.kind == Issued && (e.expiresAt.Some? ==> at <= e.expiresAt.value)
    ensures IsActive([e], e.leaseId, at)
  {
    hide IsActive;
    assert [e][..0] == [];
    assert EventsFor([e][..0], e.leaseId) == [];
    assert EventsFor([e], e.leaseId) == [e];
    hide EventsFor;
    ActiveMeansOnlyIssued([e], e.leaseId, at);
  }

  /**
   * The check and the commit are two steps, so the fence is not "no commit after the timeout": a write that passed
   * its check before the stop can still land after the TimeoutError is visible.
   */
  lemma CheckedWriteCanLandAfterTheTimeout() returns (run: seq<World>)
    ensures IsRun(run, GapSteps()) && |run[6].tasks| == |run[6].writes| == |run[7].tasks| == 1
    ensures run[6].tasks[0].phase == Reported(DeadlineTimeout) && run[6].writes[0].progress == Passed
    ensures InProgress(run[7], 0, Committed) && run[7].writes[0].leaseId == run[7].tasks[0].leaseId
    ensures forall at :: !IsActive(run[7].ledger, run[7].writes[0].leaseId, at)
  {
    hide IsActive, StateAt;
    var steps := GapSteps();
    var issued := IssuedEvent("issue", "lease", "agent", "task", 10, 1);
    var stop := RevokedEvent([issued], "stop", "lease", "deadline_exceeded", 3);
    var asked := InFlight("lease", 2, 0, Asked);
    var passed := InFlight("lease", 2, 1, Passed);
    var w0 := World([], 0, [], []);
    var w1 := World([issued], 1, [Task("agent", "lease", Running)], []);
    var w2 := w1.(clock := 2, writes := [asked]);
    var w3 := w2.(writes := [passed]);
    var w4 := w3.(clock := 3, tasks := [Task("agent", "lease", Stopping(stop, DeadlineTimeout))]);
    var w5 := w4.(ledger := [issued, stop], tasks := [Task("agent", "lease", Stopped(DeadlineTimeout))]);
    var w6 := w5.(tasks := [Task("agent", "lease", Reported(DeadlineTimeout))]);
    var w7 := w6.(writes := [passed.(progress := Committed)]);
    run := [w0, w1, w2, w3, w4, w5, w6, w7];
    assert Took(w0, steps[0], w1);
    assert Took(w1, steps[1], w2);
    JustIssuedIsActive(issued, 2);
    assert Took(w2, steps[2], w3);
    assert Took(w3, steps[3], w4);
    assert issued.eventId != stop.eventId;
    assert Took(w4, steps[4], w5);
    assert Took(w5, steps[5], w6);
    assert Took(w6, steps[6], w7);
    assert IsRun(run, steps);
    forall at ensures !IsActive(w7.ledger, "lease", at) {
      NobodySeesAnEndingBeforeTheFence(run, steps, 6, 0, 7, at);
    }
  }
}
