/** Execution leases: an append-only ledger of lease events and the fold that answers "is it valid now". */
module Lease {
  import opened Scopes
  import opened Sorting
  import Text

  datatype LeaseKind = Issued | RevokedLease | Released

  datatype LeaseEvent = LeaseEvent(
    eventId: string,
    leaseId: string,
    agentId: string,
    taskId: string,
    kind: LeaseKind,
    expiresAt: Option<Instant>,
    reason: Option<string>,
    issuedAt: Instant)

  datatype LeaseStatus = NoLease | LeaseActive | LeaseRevoked | LeaseReleased | LeaseExpired

  datatype LeaseState = LeaseState(
    leaseId: string,
    agentId: Option<string>,
    taskId: Option<string>,
    status: LeaseStatus,
    expiresAt: Option<Instant>,
    revokedReason: Option<string>)

  predicate KeyLeq(a: LeaseEvent, b: LeaseEvent) {
    a.issuedAt < b.issuedAt || (a.issuedAt == b.issuedAt && Text.Leq(a.eventId, b.eventId))
  }

  /** The events of one lease, in ledger order. */
  function EventsFor(events: seq<LeaseEvent>, leaseId: string): (r: seq<LeaseEvent>)
    ensures forall e :: e in r <==> e in events && e.leaseId == leaseId
  {
    if events == [] then []
    else
      var last := events[|events| - 1];
      assert events == events[..|events| - 1] + [last];
      EventsFor(events[..|events| - 1], leaseId) + if last.leaseId == leaseId then [last] else []
  }

  function ApplyLease(st: LeaseState, e: LeaseEvent): LeaseState {
    var seen := st.(agentId := Some(e.agentId), taskId := Some(e.taskId));
    match e.kind
    case Issued => seen.(status := LeaseActive, expiresAt := e.expiresAt)
    case RevokedLease => seen.(status := LeaseRevoked, revokedReason := e.reason)
    case Released => seen.(status := LeaseReleased)
  }

  function FoldLease(leaseId: string, s: seq<LeaseEvent>): LeaseState {
    if s == [] then LeaseState(leaseId, None, None, NoLease, None, None)
    else ApplyLease(FoldLease(leaseId, s[..|s| - 1]), s[|s| - 1])
  }

  /** The fold, then the clock: expiry applies even to a lease nobody revoked. */
  function StateAt(events: seq<LeaseEvent>, leaseId: string, at: Instant): LeaseState {
    var st := FoldLease(leaseId, SortBy(KeyLeq, EventsFor(events, leaseId)));
    if st.status == LeaseActive && st.expiresAt.Some? && at > st.expiresAt.value
    then st.(status := LeaseExpired) else st
  }

  predicate IsActive(events: seq<LeaseEvent>, leaseId: string, at: Instant) {
    StateAt(events, leaseId, at).status == LeaseActive
  }

  predicate HasEvent(events: seq<LeaseEvent>, eventId: string) {
    exists e :: e in events && e.eventId == eventId
  }

  function OrUnknown(o: Option<string>): string {
    if o.Some? && o.value != "" then o.value else "unknown"
  }

  function IssuedEvent(eventId: string, leaseId: string, agentId: string, taskId: string, ttl: int,
                       now: Instant): LeaseEvent {
    LeaseEvent(eventId, leaseId, agentId, taskId, Issued, Some(now + ttl), None, now)
  }

  function RevokedEvent(events: seq<LeaseEvent>, eventId: string, leaseId: string, reason: string,
                        now: Instant): LeaseEvent {
    var st := StateAt(events, leaseId, now);
    LeaseEvent(eventId, leaseId, OrUnknown(st.agentId), OrUnknown(st.taskId), RevokedLease, None, Some(reason), now)
  }

  function ReleasedEvent(events: seq<LeaseEvent>, eventId: string, leaseId: string, now: Instant): LeaseEvent {
    var st := StateAt(events, leaseId, now);
    LeaseEvent(eventId, leaseId, OrUnknown(st.agentId), OrUnknown(st.taskId), Released, None, None, now)
  }

  /** The ledger. Event and lease ids are drawn by the caller (they are random in the program). */
  class LeaseLedger {
    var events: seq<LeaseEvent>

    constructor ()
      ensures events == [] && UniqueEventIds(events)
    {
      events := [];
    }

    /** Append, or refuse a duplicate event id. */
    method Append(e: LeaseEvent) returns (ok: bool)
      modifies this
      ensures ok == !HasEvent(old(events), e.eventId)
      ensures events == if ok then old(events) + [e] else old(events)
      ensures UniqueEventIds(old(events)) ==> UniqueEventIds(events)
    {
      ok := true;
      for i := 0 to |events|
        invariant events == old(events)
        invariant ok <==> forall j :: 0 <= j < i ==> events[j].eventId != e.eventId
      {
        if events[i].eventId == e.eventId {
          ok := false;
        }
      }
      if ok {
        if UniqueEventIds(events) {
          AppendKeepsIdsUnique(events, e);
        }
        events := events + [e];
      }
    }

    method Issue(agentId: string, taskId: string, ttl: int, leaseId: string, eventId: string, now: Instant)
      returns (ok: bool)
      modifies this
      ensures ok == !HasEvent(old(events), eventId)
      ensures events == if ok then old(events) + [IssuedEvent(eventId, leaseId, agentId, taskId, ttl, now)]
        else old(events)
      ensures UniqueEventIds(old(events)) ==> UniqueEventIds(events)
    {
      ok := Append(LeaseEvent(eventId, leaseId, agentId, taskId, Issued, Some(now + ttl), None, now));
    }

    method Revoke(leaseId: string, reason: string, eventId: string, now: Instant) returns (ok: bool)
      modifies this
      ensures ok == !HasEvent(old(events), eventId)
      ensures events == if ok then old(events) + [RevokedEvent(old(events), eventId, leaseId, reason, now)]
        else old(events)
      ensures UniqueEventIds(old(events)) ==> UniqueEventIds(events)
    {
      var st := State(leaseId, now);
      ok := Append(LeaseEvent(eventId, leaseId, OrUnknown(st.agentId), OrUnknown(st.taskId), RevokedLease, None,
                              Some(reason), now));
    }

    method Release(leaseId: string, eventId: string, now: Instant) returns (ok: bool)
      modifies this
      ensures ok == !HasEvent(old(events), eventId)
      ensures events == if ok then old(events) + [ReleasedEvent(old(events), eventId, leaseId, now)] else old(events)
      ensures UniqueEventIds(old(events)) ==> UniqueEventIds(events)
    {
      var st := State(leaseId, now);
      ok := Append(LeaseEvent(eventId, leaseId, OrUnknown(st.agentId), OrUnknown(st.taskId), Released, None, None,
                              now));
    }

    method State(leaseId: string, at: Instant) returns (st: LeaseState)
      ensures st == StateAt(events, leaseId, at)
    {
      var mine := SortBy(KeyLeq, EventsFor(events, leaseId));
      st := LeaseState(leaseId, None, None, NoLease, None, None);
      for i := 0 to |mine|
        invariant st == FoldLease(leaseId, mine[..i])
      {
        assert mine[..i + 1][..i] == mine[..i];
        var ev := mine[i];
        st := st.(agentId := Some(ev.agentId), taskId := Some(ev.taskId));
        match ev.kind {
          case Issued => st := st.(status := LeaseActive, expiresAt := ev.expiresAt);
          case RevokedLease => st := st.(status := LeaseRevoked, revokedReason := ev.reason);
          case Released => st := st.(status := LeaseReleased);
        }
      }
      assert mine[..|mine|] == mine;
      if st.status == LeaseActive && st.expiresAt.Some? && at > st.expiresAt.value {
        st := st.(status := LeaseExpired);
      }
    }
  }

  // ------------------------------------------------------------------
  // Which event decides, on any ledger
  // ------------------------------------------------------------------

  /** What the duplicate check of Append keeps: an event id names one event. */
  ghost predicate UniqueEventIds(events: seq<LeaseEvent>) {
    forall e, f :: e in events && f in events && e.eventId == f.eventId ==> e == f
  }

  lemma AppendKeepsIdsUnique(events: seq<LeaseEvent>, e: LeaseEvent)
    requires UniqueEventIds(events) && !HasEvent(events, e.eventId)
    ensures UniqueEventIds(events + [e])
  {
  }

  /** The greatest event of the lease by (instant, event id). */
  ghost predicate IsLatest(events: seq<LeaseEvent>, leaseId: string, e: LeaseEvent) {
    && e in events && e.leaseId == leaseId
    && forall f :: f in events && f.leaseId == leaseId ==> KeyLeq(f, e)
  }

  /** An issue whose lifetime has not run out at `at`. */
  predicate Live(e: LeaseEvent, at: Instant) {
    e.kind == Issued && (e.expiresAt.Some? ==> at <= e.expiresAt.value)
  }

  lemma KeyLeqIsTotal()
    ensures TotalPreorder(KeyLeq)
  {
    forall a, b ensures KeyLeq(a, b) || KeyLeq(b, a) {
      Text.LeqTotal(a.eventId, b.eventId);
    }
    forall a, b, c | KeyLeq(a, b) && KeyLeq(b, c) ensures KeyLeq(a, c) {
      if a.issuedAt == b.issuedAt == c.issuedAt {
        Text.LeqTransitive(a.eventId, b.eventId, c.eventId);
      }
    }
  }

  lemma LatestUnique(events: seq<LeaseEvent>, leaseId: string, e: LeaseEvent, f: LeaseEvent)
    requires UniqueEventIds(events) && IsLatest(events, leaseId, e) && IsLatest(events, leaseId, f)
    ensures e == f
  {
    Text.LeqAntisymmetric(e.eventId, f.eventId);
  }

  /** The status the fold ends with is read off the last event folded. */
  lemma FoldEnds(leaseId: string, s: seq<LeaseEvent>)
    ensures s == [] ==> FoldLease(leaseId, s).status == NoLease
    ensures s != [] ==>
      var st, last := FoldLease(leaseId, s), s[|s| - 1];
      && (st.status == LeaseActive <==> last.kind == Issued)
      && (last.kind == Issued ==> st.expiresAt == last.expiresAt)
      && st.status != LeaseExpired
  {
    if s != [] {
      assert FoldLease(leaseId, s) == ApplyLease(FoldLease(leaseId, s[..|s| - 1]), s[|s| - 1]);
    }
  }

  lemma SortedEndsWithLatest(events: seq<LeaseEvent>, leaseId: string)
    ensures var mine := SortBy(KeyLeq, EventsFor(events, leaseId));
      && (mine != [] ==> IsLatest(events, leaseId, mine[|mine| - 1]))
      && (mine == [] ==> forall e :: e in events ==> e.leaseId != leaseId)
  {
    hide KeyLeq;
    KeyLeqIsTotal();
    var own := EventsFor(events, leaseId);
    SortBySorts(KeyLeq, own);
    var mine := SortBy(KeyLeq, own);
    hide SortBy;
    forall f | f in mine ensures KeyLeq(f, mine[|mine| - 1]) {
      TopOfSorted(KeyLeq, mine, f);
    }
    assert mine != [] ==> mine[|mine| - 1] in mine;
  }

  /**
   * On every ledger the duplicate check lets through: active if and only if the greatest event is an issue still in its
   * lifetime.
   */
  lemma LatestEventDecides(events: seq<LeaseEvent>, leaseId: string, at: Instant)
    requires UniqueEventIds(events)
    ensures IsActive(events, leaseId, at) <==> exists e :: IsLatest(events, leaseId, e) && Live(e, at)
  {
    hide SortBy, IsLatest, KeyLeq, UniqueEventIds, FoldLease;
    SortedEndsWithLatest(events, leaseId);
    var mine := SortBy(KeyLeq, EventsFor(events, leaseId));
    FoldEnds(leaseId, mine);
    if mine != [] {
      var last := mine[|mine| - 1];
      forall e | IsLatest(events, leaseId, e) ensures e == last {
        LatestUnique(events, leaseId, e, last);
      }
    } else {
      NoLatest(events, leaseId);
    }
  }

  /** The whole answer, read off the greatest event of the lease. */
  lemma StateFollowsLatest(events: seq<LeaseEvent>, leaseId: string, at: Instant, e: LeaseEvent)
    requires UniqueEventIds(events) && IsLatest(events, leaseId, e)
    ensures var st := StateAt(events, leaseId, at);
      && st.leaseId == leaseId && st.agentId == Some(e.agentId) && st.taskId == Some(e.taskId)
      && (st.status == LeaseActive <==> Live(e, at))
      && (st.status == LeaseExpired <==> e.kind == Issued && !Live(e, at))
      && (st.status == LeaseRevoked <==> e.kind == RevokedLease)
      && (st.status == LeaseReleased <==> e.kind == Released)
      && (e.kind == Issued ==> st.expiresAt == e.expiresAt)
      && (e.kind == RevokedLease ==> st.revokedReason == e.reason)
  {
    hide SortBy, IsLatest, KeyLeq, UniqueEventIds, FoldLease;
    SortedEndsWithLatest(events, leaseId);
    var mine := SortBy(KeyLeq, EventsFor(events, leaseId));
    SameEvents(events, leaseId);
    LatestIsOneOfThem(events, leaseId, e);
    LatestUnique(events, leaseId, e, mine[|mine| - 1]);
    FoldEndsWith(leaseId, mine);
  }

  lemma SameEvents(events: seq<LeaseEvent>, leaseId: string)
    ensures forall f :: f in SortBy(KeyLeq, EventsFor(events, leaseId)) <==> f in events && f.leaseId == leaseId
  {
    KeyLeqIsTotal();
    SortBySorts(KeyLeq, EventsFor(events, leaseId));
  }

  lemma LatestIsOneOfThem(events: seq<LeaseEvent>, leaseId: string, e: LeaseEvent)
    requires IsLatest(events, leaseId, e)
    ensures e in events && e.leaseId == leaseId
  {
  }

  lemma {:induction false} FoldKeepsLeaseId(leaseId: string, s: seq<LeaseEvent>)
    ensures FoldLease(leaseId, s).leaseId == leaseId
  {
    if s != [] {
      FoldKeepsLeaseId(leaseId, s[..|s| - 1]);
    }
  }

  lemma FoldEndsWith(leaseId: string, s: seq<LeaseEvent>)
    requires s != []
    ensures var st, last := FoldLease(leaseId, s), s[|s| - 1];
      && st.leaseId == leaseId && st.agentId == Some(last.agentId) && st.taskId == Some(last.taskId)
      && st.status == (match last.kind
                       case Issued => LeaseActive
                       case RevokedLease => LeaseRevoked
                       case Released => LeaseReleased)
      && (last.kind == Issued ==> st.expiresAt == last.expiresAt)
      && (last.kind == RevokedLease ==> st.revokedReason == last.reason)
  {
    FoldKeepsLeaseId(leaseId, s);
    assert FoldLease(leaseId, s) == ApplyLease(FoldLease(leaseId, s[..|s| - 1]), s[|s| - 1]);
  }

  /** A lease nobody issued has no state but its name. */
  lemma UnseenLeaseHasNoState(events: seq<LeaseEvent>, leaseId: string, at: Instant)
    requires forall e :: e in events ==> e.leaseId != leaseId
    ensures StateAt(events, leaseId, at) == LeaseState(leaseId, None, None, NoLease, None, None)
  {
    hide SortBy, EventsFor, KeyLeq;
    SortedEndsWithLatest(events, leaseId);
  }

  function HolderOr(name: string): string {
    if name != "" then name else "unknown"
  }

  /** A stop is dated now and names the holder of the lease's latest event, or `unknown` where that names none. */
  lemma StopsNameTheHolder(events: seq<LeaseEvent>, eventId: string, leaseId: string, reason: string, now: Instant,
                           e: LeaseEvent)
    requires UniqueEventIds(events) && IsLatest(events, leaseId, e)
    ensures RevokedEvent(events, eventId, leaseId, reason, now)
      == LeaseEvent(eventId, leaseId, HolderOr(e.agentId), HolderOr(e.taskId), RevokedLease, None, Some(reason), now)
    ensures ReleasedEvent(events, eventId, leaseId, now)
      == LeaseEvent(eventId, leaseId, HolderOr(e.agentId), HolderOr(e.taskId), Released, None, None, now)
  {
    StateFollowsLatest(events, leaseId, now, e);
    hide StateAt;
  }

  /** A lease issued under a new id is active from then on exactly until its lifetime has run out. */
  lemma IssuedLeaseLives(events: seq<LeaseEvent>, eventId: string, leaseId: string, agentId: string, taskId: string,
                         ttl: int, now: Instant, at: Instant)
    requires UniqueEventIds(events) && !HasEvent(events, eventId)
    requires forall e :: e in events ==> e.leaseId != leaseId
    ensures IsActive(events + [IssuedEvent(eventId, leaseId, agentId, taskId, ttl, now)], leaseId, at) <==>
      at <= now + ttl
  {
    var issued := IssuedEvent(eventId, leaseId, agentId, taskId, ttl, now);
    var more := events + [issued];
    AppendKeepsIdsUnique(events, issued);
    LatestEventDecides(more, leaseId, at);
    OnlyOneIsLatest(events, leaseId, issued);
    assert Live(issued, at) <==> at <= now + ttl;
    hide IsActive, IsLatest, Live;
  }

  lemma OnlyOneIsLatest(events: seq<LeaseEvent>, leaseId: string, e: LeaseEvent)
    requires e.leaseId == leaseId && forall f :: f in events ==> f.leaseId != leaseId
    ensures forall f :: IsLatest(events + [e], leaseId, f) <==> f == e
  {
    Text.LeqTotal(e.eventId, e.eventId);
    hide Text.Leq;
    assert e in events + [e];
  }

  /** A stop of a lease never seen names nobody. */
  lemma StopsOfTheUnseenNameNobody(events: seq<LeaseEvent>, eventId: string, leaseId: string, reason: string,
                                   now: Instant)
    requires forall e :: e in events ==> e.leaseId != leaseId
    ensures RevokedEvent(events, eventId, leaseId, reason, now)
      == LeaseEvent(eventId, leaseId, "unknown", "unknown", RevokedLease, None, Some(reason), now)
    ensures ReleasedEvent(events, eventId, leaseId, now)
      == LeaseEvent(eventId, leaseId, "unknown", "unknown", Released, None, None, now)
  {
    UnseenLeaseHasNoState(events, leaseId, now);
    hide StateAt;
  }

  lemma NoLatest(events: seq<LeaseEvent>, leaseId: string)
    requires forall e :: e in events ==> e.leaseId != leaseId
    ensures forall e :: !IsLatest(events, leaseId, e)
  {
  }

  /** An event that takes the lease away. */
  predicate Stops(e: LeaseEvent, leaseId: string) {
    e.leaseId == leaseId && e.kind != Issued
  }

  ghost predicate AfterEveryStop(events: seq<LeaseEvent>, leaseId: string, i: LeaseEvent) {
    forall s :: s in events && Stops(s, leaseId) ==> KeyLeq(s, i)
  }

  /** An issue of the lease sorts after every stop of it. */
  ghost predicate IssueAfterEveryStop(events: seq<LeaseEvent>, leaseId: string) {
    exists i :: i in events && i.leaseId == leaseId && i.kind == Issued && AfterEveryStop(events, leaseId, i)
  }

  lemma LatestExists(events: seq<LeaseEvent>, leaseId: string, e: LeaseEvent) returns (last: LeaseEvent)
    requires e in events && e.leaseId == leaseId
    ensures IsLatest(events, leaseId, last)
  {
    hide SortBy, KeyLeq, IsLatest;
    SortedEndsWithLatest(events, leaseId);
    var mine := SortBy(KeyLeq, EventsFor(events, leaseId));
    last := mine[|mine| - 1];
  }

  /**
   * When stopping fails: some instant still folds the lease to active if and only if an issue sorts after every stop.
   */
  lemma StoppedLeaseFoldsActiveIff(events: seq<LeaseEvent>, leaseId: string)
    requires UniqueEventIds(events)
    ensures (exists at :: IsActive(events, leaseId, at)) <==> IssueAfterEveryStop(events, leaseId)
  {
    hide IsActive;
    forall at ensures IsActive(events, leaseId, at) <==> exists e :: IsLatest(events, leaseId, e) && Live(e, at) {
      LatestEventDecides(events, leaseId, at);
    }
    if IssueAfterEveryStop(events, leaseId) {
      var i :| i in events && i.leaseId == leaseId && i.kind == Issued && AfterEveryStop(events, leaseId, i);
      var last := LatestExists(events, leaseId, i);
      if Stops(last, leaseId) {
        Text.LeqAntisymmetric(last.eventId, i.eventId);
      }
      var at := if last.expiresAt.Some? then last.expiresAt.value else 0;
      assert Live(last, at);
      assert IsActive(events, leaseId, at);
    }
  }

  /**
   * Once a lease that has been seen is not active, nothing makes it active again as long as it is not issued anew:
   * whatever else is appended, whatever the clocks say.
   */
  lemma NeverActiveAgain(before: seq<LeaseEvent>, after: seq<LeaseEvent>, leaseId: string, t: Instant, later: Instant)
    requires UniqueEventIds(after) && before <= after && t <= later
    requires exists e :: e in before && e.leaseId == leaseId
    requires forall e :: e in after && e.leaseId == leaseId && e.kind == Issued ==> e in before
    requires !IsActive(before, leaseId, t)
    ensures !IsActive(after, leaseId, later)
  {
    hide IsActive;
    assert forall e :: e in before ==> e in after;
    LatestEventDecides(before, leaseId, t);
    LatestEventDecides(after, leaseId, later);
    var e :| e in before && e.leaseId == leaseId;
    var last := LatestExists(before, leaseId, e);
    forall g | IsLatest(after, leaseId, g) && Live(g, later) ensures false {
      assert KeyLeq(g, last) && KeyLeq(last, g);
      Text.LeqAntisymmetric(g.eventId, last.eventId);
    }
  }

  // ------------------------------------------------------------------
  // Under a strictly increasing clock a lease that has stopped stays stopped.
  // ------------------------------------------------------------------

  /**
   * Per lease, instants strictly increase along the ledger and an issue comes first. Different leases may interleave.
   */
  ghost predicate Disciplined(events: seq<LeaseEvent>) {
    forall i, j :: 0 <= i < j < |events| && events[i].leaseId == events[j].leaseId ==> Precedes(events[i], events[j])
  }

  predicate Precedes(e: LeaseEvent, f: LeaseEvent) {
    e.issuedAt < f.issuedAt && f.kind != Issued
  }

  /** What one ledger operation may add: a later event of its lease, an issue only for a lease never seen. */
  ghost predicate Follows(events: seq<LeaseEvent>, e: LeaseEvent) {
    forall f :: f in events && f.leaseId == e.leaseId ==> Precedes(f, e)
  }

  lemma DisciplineKept(events: seq<LeaseEvent>, e: LeaseEvent)
    requires Disciplined(events) && Follows(events, e)
    ensures Disciplined(events + [e])
  {
    var more := events + [e];
    forall i, j | 0 <= i < j < |more| && more[i].leaseId == more[j].leaseId ensures Precedes(more[i], more[j]) {
      assert more[i] in events;
    }
  }

  lemma DisciplinedMembers(front: seq<LeaseEvent>, last: LeaseEvent)
    requires Disciplined(front + [last])
    ensures Disciplined(front) && Follows(front, last)
  {
    var all := front + [last];
    assert forall i :: 0 <= i < |front| ==> all[i] == front[i];
    assert all[|front|] == last;
  }

  lemma {:induction false} EventsForDisciplined(events: seq<LeaseEvent>, leaseId: string)
    requires Disciplined(events)
    ensures Disciplined(EventsFor(events, leaseId))
  {
    if events != [] {
      hide Disciplined;
      var front, last := events[..|events| - 1], events[|events| - 1];
      assert events == front + [last];
      DisciplinedMembers(front, last);
      EventsForDisciplined(front, leaseId);
      if last.leaseId == leaseId {
        DisciplineKept(EventsFor(front, leaseId), last);
      }
    }
  }

  lemma DisciplinedIsSorted(events: seq<LeaseEvent>, leaseId: string)
    requires Disciplined(events) && forall e :: e in events ==> e.leaseId == leaseId
    ensures SortedBy(KeyLeq, events)
  {
    forall i, j | 0 <= i < j < |events| ensures KeyLeq(events[i], events[j]) {
      assert events[i] in events && events[j] in events;
      assert Precedes(events[i], events[j]);
    }
  }

  lemma OneLeaseFold(leaseId: string, mine: seq<LeaseEvent>)
    requires Disciplined(mine) && forall e :: e in mine ==> e.leaseId == leaseId
    ensures var st := FoldLease(leaseId, mine);
      && (st.status == LeaseActive <==> |mine| == 1 && mine[0].kind == Issued)
      && (st.status == LeaseActive ==> st.expiresAt == mine[0].expiresAt)
      && st.status != LeaseExpired
  {
    if |mine| > 0 {
      var last := mine[|mine| - 1];
      assert FoldLease(leaseId, mine) == ApplyLease(FoldLease(leaseId, mine[..|mine| - 1]), last);
      if |mine| > 1 {
        assert mine[0] in mine && last in mine;
        assert Precedes(mine[0], last);
      }
    }
  }

  /** Active means: issued, nothing since, not yet past its expiry. */
  lemma ActiveMeansOnlyIssued(events: seq<LeaseEvent>, leaseId: string, at: Instant)
    requires Disciplined(events)
    ensures IsActive(events, leaseId, at) <==>
      var mine := EventsFor(events, leaseId);
      |mine| == 1 && mine[0].kind == Issued && (mine[0].expiresAt.Some? ==> at <= mine[0].expiresAt.value)
  {
    hide Disciplined, FoldLease, SortBy;
    EventsForDisciplined(events, leaseId);
    var mine := EventsFor(events, leaseId);
    DisciplinedIsSorted(mine, leaseId);
    SortOfSorted(KeyLeq, mine);
    OneLeaseFold(leaseId, mine);
  }

  /** Revoking or releasing takes effect at once and for every later instant. */
  lemma StoppedLeaseIsNotActive(events: seq<LeaseEvent>, e: LeaseEvent, at: Instant)
    requires Disciplined(events) && Follows(events, e) && e.kind != Issued
    ensures !IsActive(events + [e], e.leaseId, at)
  {
    DisciplineKept(events, e);
    var more := events + [e];
    ActiveMeansOnlyIssued(more, e.leaseId, at);
    assert more[..|more| - 1] == events;
    var mine := EventsFor(more, e.leaseId);
    assert mine[|mine| - 1] == e;
  }

  /**
   * The strict clock is needed: at one shared instant the random event id decides, and a revoked lease can fold to
   * active.
   */
  lemma TieRevivesRevokedLease()
    ensures var issued := LeaseEvent("b", "lease", "agent", "task", Issued, Some(10), None, 5);
      var revoked := LeaseEvent("a", "lease", "agent", "task", RevokedLease, None, Some("deadline"), 5);
      IsActive([issued, revoked], "lease", 6)
  {
    var issued := LeaseEvent("b", "lease", "agent", "task", Issued, Some(10), None, 5);
    var revoked := LeaseEvent("a", "lease", "agent", "task", RevokedLease, None, Some("deadline"), 5);
    assert !Text.Leq("b", "a") by { assert "b"[0] > "a"[0]; }
    var log := [issued, revoked];
    assert log[..1] == [issued] && [issued][..0] == [];
    assert EventsFor([issued], "lease") == [issued];
    assert EventsFor(log, "lease") == log;
    assert SortBy(KeyLeq, [issued]) == [issued];
    assert Insert(KeyLeq, [], revoked) == [revoked];
    assert Insert(KeyLeq, [issued], revoked) == [revoked, issued];
    assert SortBy(KeyLeq, log) == [revoked, issued];
    assert [revoked, issued][..1] == [revoked];
    assert FoldLease("lease", [revoked]).status == LeaseRevoked;
    assert FoldLease("lease", [revoked, issued]) == ApplyLease(FoldLease("lease", [revoked]), issued);
  }
}
