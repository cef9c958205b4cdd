/** The single read path for grant state: filter, sort by (instant, event id), fold. */
module Resolver {
  import opened Scopes
  import opened Sorting
  import Text

  datatype Status = Nonexistent | Active | RevokedStatus | SupersededStatus | ExpiredStatus

  datatype GrantState = GrantState(
    grantId: string,
    workId: Option<string>,
    counterpartyId: Option<string>,
    activeScope: Option<Scope>,
    status: Status,
    supersededBy: Option<string>,
    lastEventId: Option<string>,
    history: seq<GrantEvent>)

  /** Does `e` take part in the fold of `gid` at `at` (None is "now, the whole log")? */
  predicate Matches(gid: string, at: Option<Instant>, e: GrantEvent) {
    e.grantId == gid && (at.None? || e.issuedAt <= at.value)
  }

  /** The sort key order: the instant, then the event id. */
  predicate KeyLeq(a: GrantEvent, b: GrantEvent) {
    a.issuedAt < b.issuedAt || (a.issuedAt == b.issuedAt && Text.Leq(a.eventId, b.eventId))
  }

  lemma KeyLeqIsTotal()
    ensures TotalPreorder(KeyLeq)
  {
    forall a, b ensures KeyLeq(a, b) || KeyLeq(b, a) {
      Text.LeqTotal(a.eventId, b.eventId);
    }
    forall a, b, c | KeyLeq(a, b) && KeyLeq(b, c) ensures KeyLeq(a, c) {
      if a.issuedAt == b.issuedAt == c.issuedAt {
        Text.LeqTransitive(a.eventId, b.eventId, c.eventId);
      }
    }
  }

  lemma KeyLeqAntisymmetric(a: GrantEvent, b: GrantEvent)
    requires KeyLeq(a, b) && KeyLeq(b, a)
    ensures a.eventId == b.eventId
  {
    Text.LeqAntisymmetric(a.eventId, b.eventId);
  }


  /** An event id names one event: the premise under which the sort key tells events apart. */
  ghost predicate UniqueIds(log: seq<GrantEvent>) {
    forall e, f :: e in log && f in log && e.eventId == f.eventId ==> e == f
  }

  /** The matching events, in log order. */
  function Matching(gid: string, at: Option<Instant>, log: seq<GrantEvent>): (m: seq<GrantEvent>)
    ensures forall e :: e in m <==> e in log && Matches(gid, at, e)
  {
    if log == [] then []
    else
      var last := log[|log| - 1];
      var front := Matching(gid, at, log[..|log| - 1]);
      assert log == log[..|log| - 1] + [last];
      if Matches(gid, at, last) then front + [last] else front
  }

  const NOTHING: string -> GrantState := gid => GrantState(gid, None, None, None, Nonexistent, None, None, [])

  /** One step of the fold. */
  function Apply(state: GrantState, e: GrantEvent): GrantState {
    var seen :=
      state.(workId := Some(e.workId), counterpartyId := Some(e.counterpartyId), lastEventId := Some(e.eventId));
    match e.kind
    case Granted => seen.(activeScope := Some(e.scope), status := Active, supersededBy := None)
    case Revoked => seen.(activeScope := None, status := RevokedStatus)
    case Superseded => seen.(activeScope := None, status := SupersededStatus, supersededBy := e.supersedes)
    case Expired => seen.(activeScope := None, status := ExpiredStatus)
  }

  function Fold(gid: string, s: seq<GrantEvent>): GrantState {
    if s == [] then NOTHING(gid) else Apply(Fold(gid, s[..|s| - 1]), s[|s| - 1])
  }

  /** The matching events in key order. */
  function History(gid: string, at: Option<Instant>, log: seq<GrantEvent>): (h: seq<GrantEvent>)
    ensures SortedBy(KeyLeq, h)
    ensures forall e :: e in h <==> e in log && Matches(gid, at, e)
  {
    KeyLeqIsTotal();
    SortBySorts(KeyLeq, Matching(gid, at, log));
    SortBy(KeyLeq, Matching(gid, at, log))
  }

  /** The resolved state of `gid` at `at`. */
  function Resolved(gid: string, at: Option<Instant>, log: seq<GrantEvent>): GrantState {
    var history := History(gid, at, log);
    Fold(gid, history).(history := history)
  }

  method Resolve(gid: string, at: Option<Instant>, events: seq<GrantEvent>) returns (state: GrantState)
    ensures state == Resolved(gid, at, events)
  {
    var matching: seq<GrantEvent> := [];
    for i := 0 to |events|
      invariant matching == Matching(gid, at, events[..i])
    {
      assert events[..i + 1][..i] == events[..i];
      if events[i].grantId == gid {
        if at.None? || events[i].issuedAt <= at.value {
          matching := matching + [events[i]];
        }
      }
    }
    assert events[..|events|] == events;
    matching := SortBy(KeyLeq, matching);
    state := NOTHING(gid);
    for i := 0 to |matching|
      invariant state == Fold(gid, matching[..i])
    {
      assert matching[..i + 1][..i] == matching[..i];
      var e := matching[i];
      state := state.(workId := Some(e.workId), counterpartyId := Some(e.counterpartyId),
                      lastEventId := Some(e.eventId));
      match e.kind {
        case Granted => state := state.(activeScope := Some(e.scope), status := Active, supersededBy := None);
        case Revoked => state := state.(activeScope := None, status := RevokedStatus);
        case Superseded => state :=
          state.(activeScope := None, status := SupersededStatus, supersededBy := e.supersedes);
        case Expired => state := state.(activeScope := None, status := ExpiredStatus);
      }
    }
    assert matching[..|matching|] == matching;
    state := state.(history := matching);
  }

  // ------------------------------------------------------------------
  // The fold refines "the last event wins".
  // ------------------------------------------------------------------

  /** `e` is the greatest matching event of the log by (instant, event id). */
  ghost predicate IsLast(log: seq<GrantEvent>, gid: string, at: Option<Instant>, e: GrantEvent) {
    && e in log && Matches(gid, at, e)
    && forall f :: f in log && Matches(gid, at, f) ==> KeyLeq(f, e)
  }

  lemma LastUnique(log: seq<GrantEvent>, gid: string, at: Option<Instant>, e: GrantEvent, f: GrantEvent)
    requires UniqueIds(log) && IsLast(log, gid, at, e) && IsLast(log, gid, at, f)
    ensures e == f
  {
    Text.LeqAntisymmetric(e.eventId, f.eventId);
  }

  lemma HistoryEndsWithLast(gid: string, at: Option<Instant>, log: seq<GrantEvent>)
    ensures var h := History(gid, at, log);
      h != [] ==> IsLast(log, gid, at, h[|h| - 1])
  {
    hide History, Matches;
    KeyLeqIsTotal();
    var h := History(gid, at, log);
    forall f | f in h ensures KeyLeq(f, h[|h| - 1]) {
      TopOfSorted(KeyLeq, h, f);
    }
  }

  /** The resolved state is read off the greatest matching event. */
  lemma LastEventWins(gid: string, at: Option<Instant>, log: seq<GrantEvent>, e: GrantEvent)
    requires UniqueIds(log) && IsLast(log, gid, at, e)
    ensures var st := Resolved(gid, at, log);
      && (st.status == Active <==> e.kind == Granted)
      && (st.status == RevokedStatus <==> e.kind == Revoked)
      && (st.status == SupersededStatus <==> e.kind == Superseded)
      && (st.status == ExpiredStatus <==> e.kind == Expired)
      && st.activeScope == (if e.kind == Granted then Some(e.scope) else None)
      && st.workId == Some(e.workId) && st.counterpartyId == Some(e.counterpartyId)
      && st.lastEventId == Some(e.eventId)
      && st.grantId == gid
  {
    hide UniqueIds, History, Matches, Fold;
    var h := History(gid, at, log);
    assert e in h;
    HistoryEndsWithLast(gid, at, log);
    LastUnique(log, gid, at, e, h[|h| - 1]);
    FoldOfLast(gid, h);
  }

  /** The history holds what the log says of the grant up to the instant, each event as often, oldest first. */
  lemma HistoryIsTheGrantsLog(gid: string, at: Option<Instant>, log: seq<GrantEvent>, e: GrantEvent)
    ensures var h := Resolved(gid, at, log).history;
      && multiset(h)[e] == (if e.grantId == gid && (at.None? || e.issuedAt <= at.value) then multiset(log)[e] else 0)
      && forall i, j :: 0 <= i < j < |h| ==>
        h[i].issuedAt < h[j].issuedAt || (h[i].issuedAt == h[j].issuedAt && Text.Leq(h[i].eventId, h[j].eventId))
  {
    MatchingCounts(gid, at, log, e);
    hide Matching, Fold;
  }

  lemma FoldOfLast(gid: string, h: seq<GrantEvent>)
    requires h != []
    ensures Fold(gid, h) == Apply(Fold(gid, h[..|h| - 1]), h[|h| - 1])
    ensures Fold(gid, h).grantId == gid
  {
    FoldKeepsId(gid, h);
  }

  lemma {:induction false} FoldKeepsId(gid: string, s: seq<GrantEvent>)
    ensures Fold(gid, s).grantId == gid
  {
    if s != [] { FoldKeepsId(gid, s[..|s| - 1]); }
  }

  lemma NoEventNoGrant(gid: string, at: Option<Instant>, log: seq<GrantEvent>)
    requires forall e :: e in log ==> !Matches(gid, at, e)
    ensures Resolved(gid, at, log) == NOTHING(gid)
    ensures var st := Resolved(gid, at, log);
      && st.grantId == gid && st.status == Nonexistent && st.workId == None && st.counterpartyId == None
      && st.activeScope == None && st.supersededBy == None && st.lastEventId == None && st.history == []
  {
    var h := History(gid, at, log);
    HistoryEndsWithLast(gid, at, log);
  }

  /** Either there is a greatest event, or nothing matches. */
  lemma LastExists(gid: string, at: Option<Instant>, log: seq<GrantEvent>)
    ensures (exists e :: IsLast(log, gid, at, e)) || (forall e :: e in log ==> !Matches(gid, at, e))
  {
    HistoryEndsWithLast(gid, at, log);
    var h := History(gid, at, log);
    if h == [] {
      assert forall e :: e in log && Matches(gid, at, e) ==> e in h;
    }
  }

  /** Active exactly when the greatest event is a grant, and then with that event's scope. */
  lemma ActiveIff(gid: string, at: Option<Instant>, log: seq<GrantEvent>)
    requires UniqueIds(log)
    ensures Resolved(gid, at, log).status == Active
       <==> exists e :: IsLast(log, gid, at, e) && e.kind == Granted
    ensures Resolved(gid, at, log).status == Active ==> Resolved(gid, at, log).activeScope.Some?
  {
    LastExists(gid, at, log);
    if e :| IsLast(log, gid, at, e) {
      LastEventWins(gid, at, log, e);
      forall f | IsLast(log, gid, at, f) ensures f == e { LastUnique(log, gid, at, e, f); }
    } else {
      NoEventNoGrant(gid, at, log);
    }
  }

  // ------------------------------------------------------------------
  // Determinism: log order and irrelevant events do not matter.
  // ------------------------------------------------------------------

  /** How often an event takes part depends on how often the log holds it, nothing else. */
  lemma {:induction false} MatchingCounts(gid: string, at: Option<Instant>, log: seq<GrantEvent>, e: GrantEvent)
    ensures multiset(Matching(gid, at, log))[e] == if Matches(gid, at, e) then multiset(log)[e] else 0
  {
    if log != [] {
      MatchingCounts(gid, at, log[..|log| - 1], e);
      assert log == log[..|log| - 1] + [log[|log| - 1]];
    }
  }

  /** Byte-stable replay: any permutation of the log resolves to the identical state, history included. */
  lemma ReplayIsOrderFree(gid: string, at: Option<Instant>, log: seq<GrantEvent>, shuffled: seq<GrantEvent>)
    requires UniqueIds(log) && multiset(log) == multiset(shuffled)
    ensures Resolved(gid, at, log) == Resolved(gid, at, shuffled)
  {
    var a, b := Matching(gid, at, log), Matching(gid, at, shuffled);
    forall e ensures multiset(a)[e] == multiset(b)[e] {
      MatchingCounts(gid, at, log, e);
      MatchingCounts(gid, at, shuffled, e);
    }
    KeyLeqIsTotal();
    var sorted := SortBy(KeyLeq, a);
    SortBySorts(KeyLeq, a);
    SortBySorts(KeyLeq, b);
    forall x, y | x in sorted && y in sorted && KeyLeq(x, y) && KeyLeq(y, x) ensures x == y {
      KeyLeqAntisymmetric(x, y);
    }
    ArrangementUnique(KeyLeq, sorted, SortBy(KeyLeq, b));
  }

  lemma {:induction false} MatchingAppend(gid: string, at: Option<Instant>, log: seq<GrantEvent>, more: seq<GrantEvent>)
    requires forall e :: e in more ==> !Matches(gid, at, e)
    ensures Matching(gid, at, log + more) == Matching(gid, at, log)
  {
    if more == [] {
      assert log + more == log;
    } else {
      var last := more[|more| - 1];
      assert (log + more)[..|log + more| - 1] == log + more[..|more| - 1];
      assert last in more;
      MatchingAppend(gid, at, log, more[..|more| - 1]);
    }
  }

  /** Appending events of other grants, or events later than the question, changes no answer. */
  lemma IrrelevantEventsAreIgnored(gid: string, at: Option<Instant>, log: seq<GrantEvent>, more: seq<GrantEvent>)
    requires forall e :: e in more ==> !Matches(gid, at, e)
    ensures Resolved(gid, at, log + more) == Resolved(gid, at, log)
  {
    MatchingAppend(gid, at, log, more);
  }

  /** `supersededBy` is cleared by a grant, set by a supersession and carried past everything else. */
  lemma {:induction false} SupersededByLastMover(gid: string, h: seq<GrantEvent>, k: nat)
    requires k < |h| && (h[k].kind == Granted || h[k].kind == Superseded)
    requires forall j :: k < j < |h| ==> h[j].kind == Revoked || h[j].kind == Expired
    ensures Fold(gid, h).supersededBy == (if h[k].kind == Superseded then h[k].supersedes else None)
  {
    if k < |h| - 1 {
      SupersededByLastMover(gid, h[..|h| - 1], k);
    }
  }

  /** A history of revocations and expiries alone supersedes nothing. */
  lemma {:induction false} NothingSuperseded(gid: string, h: seq<GrantEvent>)
    requires forall j :: 0 <= j < |h| ==> h[j].kind == Revoked || h[j].kind == Expired
    ensures Fold(gid, h).supersededBy == None
  {
    if h != [] {
      NothingSuperseded(gid, h[..|h| - 1]);
    }
  }

  // ------------------------------------------------------------------
  // The projection permits() is fed with.
  // ------------------------------------------------------------------

  function OfGrant(gid: string, events: seq<GrantEvent>): seq<GrantEvent> {
    Matching(gid, None, events)
  }

  /** The events that can define a scope: `[e for e in history if e.kind in ("granted", "superseded")]`. */
  function Defining(h: seq<GrantEvent>): seq<GrantEvent> {
    if h == [] then []
    else
      var last := h[|h| - 1];
      Defining(h[..|h| - 1]) + if last.kind == Granted || last.kind == Superseded then [last] else []
  }

  function Last<T>(s: seq<T>): T
    requires s != []
  {
    s[|s| - 1]
  }

  /** The event defining grant `gid`, if it is active. */
  function ActiveOne(log: seq<GrantEvent>, at: Option<Instant>, gid: string): seq<GrantEvent> {
    var st := Resolved(gid, at, OfGrant(gid, log));
    if st.status == Active && st.activeScope.Some? && Defining(st.history) != []
    then [Last(Defining(st.history))] else []
  }

  /** The events defining the active grants among `gids`, in that order. */
  function ActiveOf(log: seq<GrantEvent>, at: Option<Instant>, gids: seq<string>): seq<GrantEvent> {
    if gids == [] then [] else ActiveOf(log, at, gids[..|gids| - 1]) + ActiveOne(log, at, gids[|gids| - 1])
  }

  function GrantIds(log: seq<GrantEvent>): (ids: set<string>) {
    set e | e in log :: e.grantId
  }

  function ActiveGrants(log: seq<GrantEvent>, at: Option<Instant>): seq<GrantEvent> {
    ActiveOf(log, at, Text.Sorted(GrantIds(log)))
  }

  /** An active fold ends in a grant, so the defining event exists and is that grant. */
  lemma ActiveFoldEndsInGrant(gid: string, at: Option<Instant>, log: seq<GrantEvent>)
    requires Resolved(gid, at, log).status == Active
    ensures var h := Resolved(gid, at, log).history;
      h != [] && h[|h| - 1].kind == Granted && Defining(h) != [] && Last(Defining(h)) == h[|h| - 1]
      && Resolved(gid, at, log).activeScope == Some(h[|h| - 1].scope)
      && h == History(gid, at, log)
  {
    var h := History(gid, at, log);
    assert h != [];
  }

  method ActiveGrantEvents(events: seq<GrantEvent>, at: Option<Instant>) returns (result: seq<GrantEvent>)
    ensures result == ActiveGrants(events, at)
  {
    hide Text.Ascending, Matching, Resolved, Defining, ActiveOf, GrantIds;
    result := [];
    var gids := Text.Sorted(GrantIds(events));
    ActiveOfSteps(events, at, gids, 0);
    for i := 0 to |gids|
      invariant result == ActiveOf(events, at, gids[..i])
    {
      var state := Resolve(gids[i], at, OfGrant(gids[i], events));
      ghost var before := result;
      if state.status == Active && state.activeScope.Some? {
        ActiveFoldEndsInGrant(gids[i], at, OfGrant(gids[i], events));
        var defining := Defining(state.history);
        result := result + [defining[|defining| - 1]];
      }
      assert result == before + ActiveOne(events, at, gids[i]);
      ActiveOfSteps(events, at, gids, i);
    }
    ActiveOfSteps(events, at, gids, |gids|);
  }

  lemma ActiveOfSteps(log: seq<GrantEvent>, at: Option<Instant>, gids: seq<string>, i: nat)
    requires i <= |gids|
    ensures i == 0 ==> ActiveOf(log, at, gids[..i]) == []
    ensures i < |gids| ==>
      ActiveOf(log, at, gids[..i + 1]) == ActiveOf(log, at, gids[..i]) + ActiveOne(log, at, gids[i])
    ensures i == |gids| ==> ActiveOf(log, at, gids[..i]) == ActiveOf(log, at, gids)
  {
    if i < |gids| {
      assert gids[..i + 1][..i] == gids[..i];
    } else {
      assert gids[..i] == gids;
    }
  }

  lemma OfGrantResolves(gid: string, at: Option<Instant>, log: seq<GrantEvent>)
    ensures Resolved(gid, at, OfGrant(gid, log)) == Resolved(gid, at, log)
  {
    MatchingTwice(gid, at, log);
  }

  lemma {:induction false} MatchingTwice(gid: string, at: Option<Instant>, log: seq<GrantEvent>)
    ensures Matching(gid, at, Matching(gid, None, log)) == Matching(gid, at, log)
  {
    if log != [] {
      MatchingTwice(gid, at, log[..|log| - 1]);
      var m := Matching(gid, None, log);
      var last := log[|log| - 1];
      if Matches(gid, None, last) {
        assert m[..|m| - 1] == Matching(gid, None, log[..|log| - 1]);
      }
    }
  }

  /** Exactly the greatest events that are grants, one per active grant, in grant id order. */
  ghost predicate IsActiveProjection(log: seq<GrantEvent>, at: Option<Instant>, result: seq<GrantEvent>) {
    && (forall e :: e in result <==> IsLast(log, e.grantId, at, e) && e.kind == Granted)
    && ByGrantId(result)
  }

  lemma ByGrantIdAppend(r: seq<GrantEvent>, d: GrantEvent)
    requires ByGrantId(r)
    requires forall e :: e in r ==> Text.Leq(e.grantId, d.grantId) && e.grantId != d.grantId
    ensures ByGrantId(r + [d])
  {
  }

  /** In ascending grant id order, so no grant twice. */
  ghost predicate ByGrantId(r: seq<GrantEvent>) {
    forall i, j :: 0 <= i < j < |r| ==> Text.Leq(r[i].grantId, r[j].grantId) && r[i].grantId != r[j].grantId
  }

  lemma {:induction false} ActiveOfMembers(log: seq<GrantEvent>, at: Option<Instant>, gids: seq<string>, e: GrantEvent)
    requires UniqueIds(log)
    ensures e in ActiveOf(log, at, gids) <==> e.grantId in gids && IsLast(log, e.grantId, at, e) && e.kind == Granted
  {
    hide IsLast, UniqueIds, ActiveOne;
    if gids != [] {
      var front, gid := gids[..|gids| - 1], gids[|gids| - 1];
      ActiveOfMembers(log, at, front, e);
      OneActive(log, at, gid);
      assert gids == front + [gid];
    }
  }

  lemma {:induction false} ActiveOfOrder(log: seq<GrantEvent>, at: Option<Instant>, gids: seq<string>)
    requires UniqueIds(log) && Text.Ascending(gids)
    ensures ByGrantId(ActiveOf(log, at, gids))
  {
    if gids != [] {
      var front, gid := gids[..|gids| - 1], gids[|gids| - 1];
      ActiveOfOrder(log, at, front);
      var rest, one := ActiveOf(log, at, front), ActiveOne(log, at, gid);
      OneActive(log, at, gid);
      hide ActiveOne, ByGrantId;
      forall e | e in rest ensures Text.Leq(e.grantId, gid) && e.grantId != gid {
        ActiveOfMembers(log, at, front, e);
        BelowLast(gids, e.grantId);
      }
      if one != [] {
        assert one[0] in one && one == [one[0]];
        ByGrantIdAppend(rest, one[0]);
      } else {
        assert rest + one == rest;
      }
    }
  }

  lemma BelowLast(gids: seq<string>, g: string)
    requires Text.Ascending(gids) && gids != [] && g in gids[..|gids| - 1]
    ensures Text.Leq(g, gids[|gids| - 1]) && g != gids[|gids| - 1]
  {
    var k :| 0 <= k < |gids| - 1 && gids[k] == g;
  }

  lemma OneActive(log: seq<GrantEvent>, at: Option<Instant>, gid: string)
    requires UniqueIds(log)
    ensures |ActiveOne(log, at, gid)| <= 1
    ensures forall e :: e in ActiveOne(log, at, gid) <==> IsLast(log, gid, at, e) && e.kind == Granted
    ensures forall e :: e in ActiveOne(log, at, gid) ==> e.grantId == gid
  {
    OfGrantResolves(gid, at, log);
    var st := Resolved(gid, at, log);
    ActiveIff(gid, at, log);
    if st.status == Active {
      ActiveFoldEndsInGrant(gid, at, log);
      HistoryEndsWithLast(gid, at, log);
      var d := Last(Defining(st.history));
      assert IsLast(log, gid, at, d) && d.kind == Granted;
      forall e | IsLast(log, gid, at, e) ensures e == d {
        LastUnique(log, gid, at, e, d);
      }
    }
  }

  /** One event per active grant, always a grant: the guard of permits() never fires on folded input. */
  lemma ActiveGrantsProjectTheFold(log: seq<GrantEvent>, at: Option<Instant>)
    requires UniqueIds(log)
    ensures IsActiveProjection(log, at, ActiveGrants(log, at))
  {
    var gids := Text.Sorted(GrantIds(log));
    ActiveOfOrder(log, at, gids);
    forall e: GrantEvent
      ensures e in ActiveGrants(log, at) <==> IsLast(log, e.grantId, at, e) && e.kind == Granted
    {
      ActiveOfMembers(log, at, gids, e);
      assert e in log ==> e.grantId in GrantIds(log);
    }
  }
}
