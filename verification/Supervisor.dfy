/** The supervisor: one bounded task at a time per call, a lease around it, and a circuit breaker per agent. */
module Supervisor {
  import opened Scopes
  import opened Lease
  import opened Effects
  import opened Cascade

  /** What the worker thread did before the deadline: a value, an exception, or nothing yet. */
  datatype TaskOutcome = Returned(value: string) | Raised(error: string) | NoResult

  datatype Abandoned = Abandoned(eventId: string, agentId: string, reason: string, timestamp: Instant)

  /** What the caller of execute_bounded_task sees. */
  datatype Bounded = Value(value: string) | TimeoutRaised(tripped: bool) | ErrorRaised(error: string)

  const TRIPPED := "circuit_breaker_tripped"
  const DEADLINE := "deadline_exceeded"

  /** The counters, breakers and events of one supervisor. */
  datatype Book = Book(failureCounts: map<string, int>, breakers: map<string, bool>, abandoned: seq<Abandoned>)

  function Count(b: Book, agent: string): int {
    if agent in b.failureCounts then b.failureCounts[agent] else 0
  }

  predicate Open(b: Book, agent: string) {
    agent in b.breakers && b.breakers[agent]
  }

  function AbandonedId(n: nat): string {
    "abandoned-" + Decimal(n)
  }

  function Refuse(b: Book, agent: string, t: Instant): Book {
    b.(abandoned := b.abandoned + [Abandoned(AbandonedId(|b.abandoned| + 1), agent, TRIPPED, t)])
  }

  function HandleFailure(b: Book, threshold: int, agent: string, reason: string, t: Instant): Book {
    var count := Count(b, agent) + 1;
    Book(b.failureCounts[agent := count],
         if count >= threshold then b.breakers[agent := true] else b.breakers,
         b.abandoned + [Abandoned(AbandonedId(|b.abandoned| + 1), agent, reason, t)])
  }

  function Reason(outcome: TaskOutcome): string {
    if outcome.Raised? then "error: " + outcome.error else DEADLINE
  }

  /** One call's effect on the book. */
  function AfterCall(b: Book, threshold: int, agent: string, outcome: TaskOutcome, t: Instant): Book {
    if Open(b, agent) then Refuse(b, agent, t)
    else if outcome.Returned? then b.(failureCounts := b.failureCounts[agent := 0])
    else HandleFailure(b, threshold, agent, Reason(outcome), t)
  }

  function Answer(b: Book, agent: string, outcome: TaskOutcome): Bounded {
    if Open(b, agent) then TimeoutRaised(true)
    else match outcome
      case Returned(v) => Value(v)
      case Raised(e) => ErrorRaised(e)
      case NoResult => TimeoutRaised(false)
  }

  /** The ids one call draws: they are random in the program. */
  datatype Drawn = Drawn(leaseId: string, issueId: string, stopId: string)

  /** No drawn id was ever used, and the ledger was written before the clock reading `now`. */
  ghost predicate NeverUsed(events: seq<LeaseEvent>, ids: Drawn, now: Instant) {
    && ids.issueId != ids.stopId && !HasEvent(events, ids.issueId) && !HasEvent(events, ids.stopId)
    && Disciplined(events)
    && forall e :: e in events ==> e.leaseId != ids.leaseId && e.issuedAt <= now
  }

  /**
   * A call that dispatches leaves the ledger with its lease issued and then stopped, both later than everything before.
   */
  ghost predicate IssuedThenStopped(before: seq<LeaseEvent>, after: seq<LeaseEvent>, ids: Drawn, ttl: int,
                                    kind: LeaseKind) {
    && |after| == |before| + 2 && before <= after
    && var issued, stopped := after[|before|], after[|before| + 1];
    && issued.leaseId == stopped.leaseId == ids.leaseId
    && issued.kind == Issued && stopped.kind == kind
    && issued.expiresAt == Some(issued.issuedAt + ttl) && issued.issuedAt < stopped.issuedAt
  }

  lemma NeverIssuedIsNotActive(events: seq<LeaseEvent>, ids: Drawn, now: Instant)
    requires NeverUsed(events, ids, now)
    ensures forall at :: !IsActive(events, ids.leaseId, at)
  {
    NoEventsFor(events, ids.leaseId);
    forall at ensures !IsActive(events, ids.leaseId, at) {
      ActiveMeansOnlyIssued(events, ids.leaseId, at);
    }
  }

  lemma {:induction false} NoEventsFor(events: seq<LeaseEvent>, leaseId: string)
    requires forall e :: e in events ==> e.leaseId != leaseId
    ensures EventsFor(events, leaseId) == []
  {
    if events != [] {
      NoEventsFor(events[..|events| - 1], leaseId);
    }
  }

  lemma StopIsNew(before: seq<LeaseEvent>, ids: Drawn, start: Instant, agentId: string, taskId: string, ttl: int,
                  now: Instant)
    requires NeverUsed(before, ids, start)
    ensures !HasEvent(before, ids.issueId)
    ensures !HasEvent(before + [IssuedEvent(ids.issueId, ids.leaseId, agentId, taskId, ttl, now)], ids.stopId)
  {
  }

  lemma StopFacts(mid: seq<LeaseEvent>, ids: Drawn, outcome: TaskOutcome, later: Instant, stop: LeaseEvent)
    requires outcome.Returned? ==> stop == ReleasedEvent(mid, ids.stopId, ids.leaseId, later)
    requires !outcome.Returned? ==> stop == RevokedEvent(mid, ids.stopId, ids.leaseId, Reason(outcome), later)
    ensures stop.leaseId == ids.leaseId && stop.issuedAt == later
    ensures stop.kind == if outcome.Returned? then Released else RevokedLease
  {
    hide StateAt;
  }

  /** Issue followed by a stop, both later than the ledger: the lease is dead at every instant. */
  lemma StoppedAtOnce(before: seq<LeaseEvent>, mid: seq<LeaseEvent>, after: seq<LeaseEvent>, ids: Drawn, ttl: int,
                      stop: LeaseEvent, agentId: string, taskId: string, start: Instant, now: Instant)
    requires NeverUsed(before, ids, start) && start < now < stop.issuedAt
    requires mid == before + [IssuedEvent(ids.issueId, ids.leaseId, agentId, taskId, ttl, now)] && after == mid + [stop]
    requires stop.leaseId == ids.leaseId && stop.kind != Issued
    ensures IssuedThenStopped(before, after, ids, ttl, stop.kind)
    ensures Disciplined(after) && forall at :: !IsActive(after, ids.leaseId, at)
  {
    hide StateAt, FoldLease, HasEvent, IsActive;
    var issued := IssuedEvent(ids.issueId, ids.leaseId, agentId, taskId, ttl, now);
    assert Follows(before, issued);
    DisciplineKept(before, issued);
    assert Follows(mid, stop);
    forall at ensures !IsActive(after, ids.leaseId, at) {
      StoppedLeaseIsNotActive(mid, stop, at);
    }
    DisciplineKept(mid, stop);
  }

  /** One event was added for the agent, and its reason is the caller's: tripped, deadline or the error raised. */
  predicate AddedFor(before: seq<Abandoned>, after: seq<Abandoned>, agentId: string, r: Bounded) {
    && |after| == |before| + 1 && before <= after
    && var last := after[|before|];
    && last.agentId == agentId
    && (r == TimeoutRaised(true) <==> last.reason == TRIPPED)
    && (r == TimeoutRaised(false) <==> last.reason == DEADLINE)
    && (r.ErrorRaised? ==> last.reason == "error: " + r.error)
  }

  lemma ReasonsApart()
    ensures TRIPPED != DEADLINE
    ensures forall e: string :: "error: " + e != TRIPPED && "error: " + e != DEADLINE
  {
    assert |TRIPPED| == 23 && |DEADLINE| == 17;
    forall e: string ensures "error: " + e != TRIPPED && "error: " + e != DEADLINE {
      assert ("error: " + e)[0] == 'e' && TRIPPED[0] == 'c' && DEADLINE[0] == 'd';
    }
  }

  class Supervisor {
    const failureThreshold: int
    const leaseTtl: int
    const ledger: LeaseLedger?
    var failureCounts: map<string, int>
    var circuitBreakers: map<string, bool>
    var abandonedEvents: seq<Abandoned>
    ghost var invoked: seq<string>

    constructor (failureThreshold: int, leaseTtl: int, ledger: LeaseLedger?)
      ensures this.failureThreshold == failureThreshold && this.leaseTtl == leaseTtl && this.ledger == ledger
      ensures TheBook() == Book(map[], map[], []) && invoked == []
    {
      this.failureThreshold := failureThreshold;
      this.leaseTtl := leaseTtl;
      this.ledger := ledger;
      failureCounts, circuitBreakers, abandonedEvents := map[], map[], [];
      invoked := [];
    }

    function TheBook(): Book
      reads this
    {
      Book(failureCounts, circuitBreakers, abandonedEvents)
    }

    method RecordFailure(agentId: string, reason: string, clock: Clock) returns (t: Instant)
      modifies this`failureCounts, this`circuitBreakers, this`abandonedEvents, clock
      ensures TheBook() == HandleFailure(old(TheBook()), failureThreshold, agentId, reason, t)
      ensures clock.now > old(clock.now)
    {
      var count := (if agentId in failureCounts then failureCounts[agentId] else 0) + 1;
      failureCounts := failureCounts[agentId := count];
      if count >= failureThreshold {
        circuitBreakers := circuitBreakers[agentId := true];
      }
      t := clock.Read();
      abandonedEvents := abandonedEvents + [Abandoned(AbandonedId(|abandonedEvents| + 1), agentId, reason, t)];
    }

    /**
     * Runs one task under the deadline. Whether it answers in time is an input. The lease is stopped before the
     * book is touched and before anything is raised.
     */
    method ExecuteBoundedTask(agentId: string, taskId: string, outcome: TaskOutcome, ids: Drawn, clock: Clock)
      returns (r: Bounded, ghost t: Instant)
      requires ledger != null ==> NeverUsed(ledger.events, ids, clock.now)
      modifies this`failureCounts, this`circuitBreakers, this`abandonedEvents, this`invoked, ledger, clock
      ensures r == Answer(old(TheBook()), agentId, outcome)
      ensures r.Value? <==> abandonedEvents == old(abandonedEvents)
      ensures r.Value? ==> outcome == Returned(r.value)
      ensures r.ErrorRaised? ==> outcome == Raised(r.error)
      ensures r == TimeoutRaised(false) ==> outcome == NoResult
      ensures !r.Value? ==> AddedFor(old(abandonedEvents), abandonedEvents, agentId, r)
      ensures TheBook() == AfterCall(old(TheBook()), failureThreshold, agentId, outcome, t)
      ensures invoked == if old(Open(TheBook(), agentId)) then old(invoked) else old(invoked) + [agentId]
      ensures ledger != null && old(Open(TheBook(), agentId)) ==> ledger.events == old(ledger.events)
      ensures ledger != null && !old(Open(TheBook(), agentId)) ==>
        IssuedThenStopped(old(ledger.events), ledger.events, ids, leaseTtl, if outcome.Returned? then Released
                          else RevokedLease)
      ensures ledger != null ==> forall at :: !IsActive(ledger.events, ids.leaseId, at)
    {
      hide FoldLease, IsActive, StateAt, Disciplined, HasEvent, IssuedThenStopped, NeverUsed, IssuedEvent, RevokedEvent,
           ReleasedEvent;
      ReasonsApart();
      if agentId in circuitBreakers && circuitBreakers[agentId] {
        var now := clock.Read();
        t := now;
        abandonedEvents := abandonedEvents + [Abandoned(AbandonedId(|abandonedEvents| + 1), agentId, TRIPPED, now)];
        if ledger != null {
          NeverIssuedIsNotActive(ledger.events, ids, old(clock.now));
        }
        r := TimeoutRaised(true);
        return;
      }
      if ledger != null {
        ghost var before := ledger.events;
        var now := clock.Read();
        StopIsNew(before, ids, old(clock.now), agentId, taskId, leaseTtl, now);
        var ok := ledger.Issue(agentId, taskId, leaseTtl, ids.leaseId, ids.issueId, now);
        ghost var mid := ledger.events;
        var later := clock.Read();
        if outcome.Returned? {
          ok := ledger.Release(ids.leaseId, ids.stopId, later);
        } else {
          ok := ledger.Revoke(ids.leaseId, Reason(outcome), ids.stopId, later);
        }
        ghost var stop := ledger.events[|mid|];
        StopFacts(mid, ids, outcome, later, stop);
        StoppedAtOnce(before, mid, ledger.events, ids, leaseTtl, stop, agentId, taskId, old(clock.now), now);
      }
      invoked := invoked + [agentId];
      match outcome {
        case NoResult =>
          t := RecordFailure(agentId, DEADLINE, clock);
          r := TimeoutRaised(false);
        case Raised(error) =>
          t := RecordFailure(agentId, "error: " + error, clock);
          r := ErrorRaised(error);
        case Returned(value) =>
          t := clock.Read();
          failureCounts := failureCounts[agentId := 0];
          r := Value(value);
      }
    }
  }

  // ------------------------------------------------------------------
  // Any run of bounded tasks
  // ------------------------------------------------------------------

  datatype Call = Call(agent: string, outcome: TaskOutcome, t: Instant)

  /** The book after a history of calls. */
  function Run(threshold: int, calls: seq<Call>): Book {
    if calls == [] then Book(map[], map[], [])
    else
      var last := calls[|calls| - 1];
      AfterCall(Run(threshold, calls[..|calls| - 1]), threshold, last.agent, last.outcome, last.t)
  }

  /** Whether each of the agent's calls failed to return, in order: nothing about books or breakers. */
  function Failing(calls: seq<Call>, agent: string): seq<bool> {
    if calls == [] then []
    else
      var last := calls[|calls| - 1];
      Failing(calls[..|calls| - 1], agent) + if last.agent == agent then [!last.outcome.Returned?] else []
  }

  /** `n` failing calls in a row, with no returning call between them. */
  ghost predicate Streak(m: seq<bool>, n: nat) {
    exists i: nat :: FailsFrom(m, i, n)
  }

  ghost predicate FailsFrom(m: seq<bool>, i: nat, n: nat) {
    i + n <= |m| && forall k :: i <= k < i + n ==> m[k]
  }

  function Trailing(m: seq<bool>): nat {
    if m == [] || !m[|m| - 1] then 0 else Trailing(m[..|m| - 1]) + 1
  }

  /** A threshold below one trips on the first failure, like one. */
  function Limit(threshold: int): nat {
    if threshold < 1 then 1 else threshold
  }

  /** The trailing failures are the longest failing suffix. */
  lemma {:induction false} TrailingIsARun(m: seq<bool>, n: nat)
    requires n <= |m|
    ensures Trailing(m) <= |m|
    ensures Trailing(m) >= n <==> FailsFrom(m, |m| - n, n)
  {
    if m != [] {
      var front := m[..|m| - 1];
      TrailingIsARun(front, if n == 0 then 0 else n - 1);
      if n > 0 && FailsFrom(m, |m| - n, n) {
        assert m[|m| - 1];
        assert FailsFrom(front, |front| - (n - 1), n - 1);
      }
    }
  }

  lemma StreakStep(m: seq<bool>, x: bool, n: nat)
    requires n > 0
    ensures Streak(m + [x], n) <==> Streak(m, n) || Trailing(m + [x]) >= n
  {
    var w := m + [x];
    TrailingIsARun(w, 0);
    if |w| >= n {
      TrailingIsARun(w, n);
    }
    forall i: nat | FailsFrom(m, i, n) ensures FailsFrom(w, i, n) {
    }
    forall i: nat | FailsFrom(w, i, n) ensures FailsFrom(m, i, n) || i == |w| - n {
      if i + n <= |m| {
        assert forall k :: i <= k < i + n ==> w[k] && w[k] == m[k];
      }
    }
  }

  /**
   * The breaker is open exactly when the limit was reached without a success between; until then the counter counts.
   */
  lemma {:induction false} BreakerOpenIff(threshold: int, calls: seq<Call>, agent: string)
    ensures Open(Run(threshold, calls), agent) <==> Streak(Failing(calls, agent), Limit(threshold))
    ensures !Open(Run(threshold, calls), agent) ==>
      Count(Run(threshold, calls), agent) == Trailing(Failing(calls, agent))
  {
    if calls != [] {
      var front, last := calls[..|calls| - 1], calls[|calls| - 1];
      BreakerOpenIff(threshold, front, agent);
      hide Streak;
      var m := Failing(front, agent);
      if last.agent == agent {
        assert (m + [!last.outcome.Returned?])[..|m|] == m;
        StreakStep(m, !last.outcome.Returned?, Limit(threshold));
      } else {
        assert Failing(calls, agent) == m;
      }
    }
  }

  /** A call is refused, its task never started, exactly when such a streak lies in the agent's earlier calls. */
  lemma RefusedExactlyAfterAStreak(threshold: int, calls: seq<Call>, i: nat)
    requires i < |calls|
    ensures Answer(Run(threshold, calls[..i]), calls[i].agent, calls[i].outcome) == TimeoutRaised(true)
       <==> Streak(Failing(calls[..i], calls[i].agent), Limit(threshold))
  {
    BreakerOpenIff(threshold, calls[..i], calls[i].agent);
  }

  /** Once open, open for good, whatever is called. */
  lemma {:induction false} OpenStaysOpen(threshold: int, calls: seq<Call>, i: nat, agent: string)
    requires i <= |calls| && Open(Run(threshold, calls[..i]), agent)
    ensures Open(Run(threshold, calls), agent)
    decreases |calls|
  {
    if i == |calls| {
      assert calls[..i] == calls;
    } else {
      assert calls[..|calls| - 1][..i] == calls[..i];
      OpenStaysOpen(threshold, calls[..|calls| - 1], i, agent);
    }
  }

  /** Calls of the agent that ran and failed. */
  function Failures(threshold: int, calls: seq<Call>, agent: string): nat {
    if calls == [] then 0
    else
      var front, last := calls[..|calls| - 1], calls[|calls| - 1];
      Failures(threshold, front, agent)
      + if last.agent == agent && !Open(Run(threshold, front), agent) && !last.outcome.Returned? then 1 else 0
  }

  /** Calls of the agent that were refused without running. */
  function Refusals(threshold: int, calls: seq<Call>, agent: string): nat {
    if calls == [] then 0
    else
      var front, last := calls[..|calls| - 1], calls[|calls| - 1];
      Refusals(threshold, front, agent) + if last.agent == agent && Open(Run(threshold, front), agent) then 1 else 0
  }

  function EventsOfAgent(events: seq<Abandoned>, agent: string, tripped: bool): nat {
    if events == [] then 0
    else
      var last := events[|events| - 1];
      EventsOfAgent(events[..|events| - 1], agent, tripped)
      + if last.agentId == agent && (last.reason == TRIPPED) == tripped then 1 else 0
  }

  lemma ReasonsDiffer(outcome: TaskOutcome)
    ensures Reason(outcome) != TRIPPED
  {
    assert Reason(outcome)[0] in {'e', 'd'};
  }

  /** The supervisor writes one event per failure and one per refusal, and no other. */
  lemma {:induction false} AbandonedEventsAccountForEveryFailure(threshold: int, calls: seq<Call>, agent: string)
    ensures EventsOfAgent(Run(threshold, calls).abandoned, agent, false) == Failures(threshold, calls, agent)
    ensures EventsOfAgent(Run(threshold, calls).abandoned, agent, true) == Refusals(threshold, calls, agent)
  {
    if calls != [] {
      var front, last := calls[..|calls| - 1], calls[|calls| - 1];
      AbandonedEventsAccountForEveryFailure(threshold, front, agent);
      OneEventPerCall(Run(threshold, front), threshold, last, agent);
    }
  }

  lemma OneEventPerCall(b: Book, threshold: int, call: Call, agent: string)
    ensures var after := AfterCall(b, threshold, call.agent, call.outcome, call.t);
      && EventsOfAgent(after.abandoned, agent, true)
         == EventsOfAgent(b.abandoned, agent, true) + (if call.agent == agent && Open(b, agent) then 1 else 0)
      && EventsOfAgent(after.abandoned, agent, false)
         == EventsOfAgent(b.abandoned, agent, false)
           + (if call.agent == agent && !Open(b, agent) && !call.outcome.Returned? then 1 else 0)
  {
    ReasonsDiffer(call.outcome);
    var after := AfterCall(b, threshold, call.agent, call.outcome, call.t);
    if after.abandoned != b.abandoned {
      assert after.abandoned[..|after.abandoned| - 1] == b.abandoned;
    }
  }

  predicate Numbered(events: seq<Abandoned>) {
    forall i :: 0 <= i < |events| ==> events[i].eventId == AbandonedId(i + 1)
  }

  lemma {:induction false} EventsAreNumbered(threshold: int, calls: seq<Call>)
    ensures Numbered(Run(threshold, calls).abandoned)
  {
    if calls != [] {
      hide AbandonedId;
      EventsAreNumbered(threshold, calls[..|calls| - 1]);
    }
  }

  /** Event ids number the events from one, so no two events share an id. */
  lemma AbandonedIdsNumberTheEvents(threshold: int, calls: seq<Call>)
    ensures var events := Run(threshold, calls).abandoned;
      Numbered(events) && forall i, j :: 0 <= i < j < |events| ==> events[i].eventId != events[j].eventId
  {
    EventsAreNumbered(threshold, calls);
    var events := Run(threshold, calls).abandoned;
    hide Run;
    forall i, j | 0 <= i < j < |events| ensures events[i].eventId != events[j].eventId {
      IdsDiffer(i + 1, j + 1);
    }
  }

  lemma IdsDiffer(m: nat, n: nat)
    requires m != n
    ensures AbandonedId(m) != AbandonedId(n)
  {
    var prefix := "abandoned-";
    assert AbandonedId(m)[|prefix|..] == Decimal(m) && AbandonedId(n)[|prefix|..] == Decimal(n);
    if Decimal(m) == Decimal(n) {
      DecimalInjective(m, n);
    }
  }
}
