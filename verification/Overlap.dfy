/**
 * A run in which two operation ids the API accepts overlap past a colon: an attempt finishes, its selected grant is
 * neither terminated nor noticed, and still folds to active.
 */
module Overlap {
  import opened Scopes
  import opened Resolver
  import opened Evaluator
  import opened Lattice
  import opened Effects
  import opened Gateway
  import opened Cascade
  import opened CascadeTheorems
  import opened CascadeMachine
  import opened CascadeRefinement
  import opened Examples
  import Sorting
  import Text

  const NAMES := Names("grants", "revocation_outbox", "revocation_notices")

  function Given(h: Hash, grantId: string, workId: string): GrantEvent {
    GrantEvent(DeterministicEventId(h, grantId, 1, 1), grantId, workId, "acme", Asked("training", "all_models", ["WW"]),
               Granted, None, 1)
  }

  /** Two grants on two works, nothing else. */
  function Start0(h: Hash): Store {
    Store(map[], map["grants" := [EventEntry(Given(h, "x:g", "w1")), EventEntry(Given(h, "g", "w2"))]])
  }

  function Shorter(h: Hash): Config { Config(h, NAMES, USES, "retry-01", "w1", "training") }
  function Longer(h: Hash): Config { Config(h, NAMES, USES, "retry-01:x", "w2", "training") }

  lemma GivenIds(h: Hash)
    requires Injective(h)
    ensures Given(h, "x:g", "w1").eventId != Given(h, "g", "w2").eventId
    ensures Ordinary(h, Given(h, "x:g", "w1").eventId) && Ordinary(h, Given(h, "g", "w2").eventId)
  {
    assert Decimal(1) == "1";
    assert |"x:g" + ":" + "1" + ":" + "1"| == 7 && |"g" + ":" + "1" + ":" + "1"| == 5;
    forall op, g, x | x in {REVOKED_EVENT, OUTBOX, NOTICE}
      ensures Given(h, "x:g", "w1").eventId != EffectId(h, op, g, x)
      ensures Given(h, "g", "w2").eventId != EffectId(h, op, g, x)
    {
      OrdinaryIdsAreNotEffects(h, "x:g", 1, 1, op, g, x);
      OrdinaryIdsAreNotEffects(h, "g", 1, 1, op, g, x);
    }
  }

  lemma NamesDistinct()
    ensures NAMES.grants != NAMES.outbox && NAMES.grants != NAMES.notices && NAMES.outbox != NAMES.notices
  {
    assert |"grants"| == 6 && |"revocation_outbox"| == 17 && |"revocation_notices"| == 18;
  }

  lemma StartParts(h: Hash)
    ensures var s := Start0(h);
      && Written(s, NAMES.grants) == [EventEntry(Given(h, "x:g", "w1")), EventEntry(Given(h, "g", "w2"))]
      && Written(s, NAMES.outbox) == [] && Written(s, NAMES.notices) == [] && s.served == map[]
      && Typed(s, NAMES)
  {
    NamesDistinct();
    hide DeterministicEventId;
    assert DocsOf(Written(Start0(h), NAMES.grants)) == [GrantDoc(Given(h, "x:g", "w1")), GrantDoc(Given(h, "g", "w2"))];
  }

  lemma StartIsInitial(h: Hash)
    requires Injective(h)
    ensures Initial(Deployment(h, NAMES, USES), World(Start0(h), []))
  {
    NamesDistinct();
    StartParts(h);
    GivenIds(h);
    hide Ordinary, Given, Start0, DeterministicEventId, Injective;
  }

  /** The events of the store: the two grants and what was added. */
  lemma LogOf(h: Hash, s: Store, added: seq<GrantEvent>, e: GrantEvent)
    requires s.served == map[] && Written(s, NAMES.grants) == Written(Start0(h), NAMES.grants) + EventEntries(added)
    ensures Logged(NAMES, s, e) <==> e == Given(h, "x:g", "w1") || e == Given(h, "g", "w2") || e in added
  {
    StartParts(h);
    LoggedAfter(NAMES, Start0(h), s, added, e);
    assert DocsOf(Written(Start0(h), NAMES.grants)) == [GrantDoc(Given(h, "x:g", "w1")), GrantDoc(Given(h, "g", "w2"))];
    hide Given, Start0;
  }

  /** A log whose only event of a grant is its granting: active, and selected for a revocation of its own use. */
  lemma OnlyGranted(c: Config, log: seq<GrantEvent>, g: GrantEvent, at: Instant)
    requires forall e :: e in log <==> e == g
    requires g.kind == Granted && g.scope == Asked("training", "all_models", ["WW"]) && c.order == USES
    requires c.useType == "training"
    ensures Resolved(g.grantId, None, log).status == Active && Selected(c, Resolved(g.grantId, None, log), at)
    ensures GrantIds(log) == {g.grantId}
  {
    hide Resolved, USES;
    Text.LeqTotal(g.eventId, g.eventId);
    assert UniqueIds(log) && IsLast(log, g.grantId, None, g);
    LastEventWins(g.grantId, None, log, g);
    hide UniqueIds, IsLast;
    TrainingCoversItself();
    assert g in log;
    assert forall id :: id in GrantIds(log) ==> id == g.grantId;
  }

  lemma TrainingCoversItself()
    ensures Contains(USES, "training", "training")
  {
  }

  /** The longer operation commits its pair for "g" and its worker dies before delivering. */
  lemma LongerCommits(h: Hash)
    returns (s: Store, a: Attempt, run: seq<World>, steps: seq<Step>, added: seq<GrantEvent>, r: OutboxRow)
    requires Injective(h)
    ensures From(Deployment(h, NAMES, USES), run, steps, World(Start0(h), []), World(s, [a]))
    ensures Belongs(Deployment(h, NAMES, USES), a.c)
    ensures s.served == map[] && Written(s, NAMES.grants) == Written(Start0(h), NAMES.grants) + EventEntries(added)
    ensures (forall e :: e in added ==> e.workId == "w2") && Typed(s, NAMES)
    ensures Written(s, NAMES.notices) == [] && RowEntry(r) in Written(s, NAMES.outbox) && r.operationId == "retry-01:x"
    ensures r.grantId == "g"
    ensures forall x :: x in Written(s, NAMES.outbox) ==> exists y :: x == RowEntry(y) && y.operationId == "retry-01:x"
  {
    hide *;
    s, a, run, steps := LongerRun(h);
    added, r := LongerStore(h, s);
  }

  lemma LongerRun(h: Hash) returns (s: Store, a: Attempt, run: seq<World>, steps: seq<Step>)
    ensures From(Deployment(h, NAMES, USES), run, steps, World(Start0(h), []), World(s, [a]))
    ensures Belongs(Deployment(h, NAMES, USES), a.c)
    ensures s
      == Phase1(Longer(h), Start0(h), Snapshot(Longer(h), Start0(h)), 5, map[], Gids(Snapshot(Longer(h), Start0(h))))
  {
    var d, c, s0 := Deployment(h, NAMES, USES), Longer(h), Start0(h);
    StartParts(h);
    var snapshot := Snapshot(c, s0);
    hide Phase1, From, Snapshot, Typed, Start0, USES, Gids;
    var gids := Gids(snapshot);
    run, steps := Opening(d, [], c, s0, 5);
    run, steps := Phase1Run(d, [], c, s0, snapshot, 5, map[], |gids|, run, steps, World(s0, []));
    assert gids[..|gids|] == gids;
    s := Phase1(c, s0, snapshot, 5, map[], gids);
    a := Passing(c, snapshot, 5, |gids|);
    assert With([], s, a) == World(s, [a]);
  }

  lemma LongerParts(h: Hash)
    ensures var c := Longer(h);
      c.names == NAMES && c.h == h && c.operationId == "retry-01:x" && c.workId == "w2"
  {
  }

  lemma LongerStore(h: Hash, s: Store) returns (added: seq<GrantEvent>, r: OutboxRow)
    requires Injective(h)
    requires s
      == Phase1(Longer(h), Start0(h), Snapshot(Longer(h), Start0(h)), 5, map[], Gids(Snapshot(Longer(h), Start0(h))))
    ensures s.served == map[] && Written(s, NAMES.grants) == Written(Start0(h), NAMES.grants) + EventEntries(added)
    ensures (forall e :: e in added ==> e.workId == "w2") && Typed(s, NAMES)
    ensures Written(s, NAMES.notices) == [] && RowEntry(r) in Written(s, NAMES.outbox) && r.operationId == "retry-01:x"
    ensures r.grantId == "g"
    ensures forall x :: x in Written(s, NAMES.outbox) ==> exists y :: x == RowEntry(y) && y.operationId == "retry-01:x"
  {
    hide *;
    var c, s0 := Longer(h), Start0(h);
    LongerParts(h);
    NamesDistinct();
    StartParts(h);
    LongerSnapshot(h);
    var snapshot := Snapshot(c, s0);
    var gids := Gids(snapshot);
    Phase1Typed(c, s0, snapshot, 5, map[], gids);
    GidsAscend(snapshot);
    Phase1Shape(c, s0, snapshot, 5, map[], gids);
    added := FiredEvents(c, s0, snapshot, 5, map[], gids);
    AddedOfWork(c, s0, snapshot, 5, map[], gids);
    r := LongerRow(c, s0, snapshot, gids);
    GrewParts(s0, s, added, FiredRows(c, s0, snapshot, 5, map[], gids));
    RowsOnly(Written(s, NAMES.outbox), FiredRows(c, s0, snapshot, 5, map[], gids), "retry-01:x");
  }

  /** The row committed for "g". */
  lemma LongerRow(c: Config, s: Store, snapshot: seq<GrantEvent>, gids: seq<string>) returns (r: OutboxRow)
    requires "g" in gids && Fires(c, s, snapshot, 5, "g") && c.names == NAMES
    ensures r.operationId == c.operationId && r.grantId == "g"
    ensures RowEntry(r) in RowEntries(FiredRows(c, s, snapshot, 5, map[], gids))
    ensures forall x :: x in FiredRows(c, s, snapshot, 5, map[], gids) ==> x.operationId == c.operationId
  {
    hide EffectId, FiredRows, Resolved, Clear;
    RowMembers(c, s, snapshot, 5, map[], gids);
    FoldNamesGrant("g", None, snapshot);
    r := RowFor(c, Resolved("g", None, snapshot), DraftFor(map[], "g"));
    RowIn(FiredRows(c, s, snapshot, 5, map[], gids), r);
  }

  lemma GrewParts(before: Store, after: Store, events: seq<GrantEvent>, rows: seq<OutboxRow>)
    requires Grew(NAMES, before, after, events, rows)
    ensures after.served == before.served
    ensures Written(after, NAMES.grants) == Written(before, NAMES.grants) + EventEntries(events)
    ensures Written(after, NAMES.outbox) == Written(before, NAMES.outbox) + RowEntries(rows)
    ensures Written(after, NAMES.notices) == Written(before, NAMES.notices)
  {
    NamesDistinct();
    hide Written;
  }

  lemma AddedOfWork(c: Config, s: Store, snapshot: seq<GrantEvent>, at: Instant, drafts: map<string, Draft>,
                    gids: seq<string>)
    ensures forall e :: e in FiredEvents(c, s, snapshot, at, drafts, gids) ==> e.workId == c.workId
  {
    hide Resolved, Clear, EffectId;
    FiredMembers(c, s, snapshot, at, drafts, gids);
  }

  lemma GidsAscend(snapshot: seq<GrantEvent>)
    ensures Text.Ascending(Gids(snapshot))
  {
  }

  lemma RowIn(rows: seq<OutboxRow>, r: OutboxRow)
    requires r in rows
    ensures RowEntry(r) in RowEntries(rows)
  {
    var i :| 0 <= i < |rows| && rows[i] == r;
    assert RowEntries(rows)[i] == RowEntry(r);
  }

  lemma RowsOnly(b: Bucket, rows: seq<OutboxRow>, op: string)
    requires b == [] + RowEntries(rows) && forall x :: x in rows ==> x.operationId == op
    ensures b == RowEntries(rows)
    ensures forall x :: x in b ==> exists y :: x == RowEntry(y) && y.operationId == op
  {
    forall x | x in b ensures exists y :: x == RowEntry(y) && y.operationId == op {
      var i :| 0 <= i < |b| && b[i] == x;
      assert b[i] == RowEntry(rows[i]) && rows[i] in rows;
    }
  }

  lemma LongerSnapshot(h: Hash)
    requires Injective(h)
    ensures Typed(Start0(h), NAMES)
    ensures var snapshot := Snapshot(Longer(h), Start0(h));
      && "g" in Gids(snapshot) && Fires(Longer(h), Start0(h), snapshot, 5, "g")
  {
    StartParts(h);
    var c, s := Longer(h), Start0(h);
    LongerMembers(h);
    hide Snapshot, Start0, Typed, USES;
    OnlyGranted(c, Snapshot(c, s), Given(h, "g", "w2"), 5);
    hide Resolved, Selected, Contains;
    StartIsClear(h);
  }

  lemma LongerMembers(h: Hash)
    requires Typed(Start0(h), NAMES)
    ensures forall e :: e in Snapshot(Longer(h), Start0(h)) <==> e == Given(h, "g", "w2")
  {
    StartParts(h);
    var c, s := Longer(h), Start0(h);
    forall e ensures e in Snapshot(c, s) <==> e == Given(h, "g", "w2") {
      SnapshotMembers(c, s, e);
      assert Written(s, NAMES.grants) + EventEntries([]) == Written(s, NAMES.grants);
      LogOf(h, s, [], e);
    }
  }

  lemma StartIsClear(h: Hash)
    requires Injective(h)
    ensures Clear(Longer(h), Start0(h), "g")
  {
    StartParts(h);
    GivenIds(h);
    hide Start0, Injective, EffectId, Given;
  }

  /** The shorter operation selects "x:g", finds the ids taken, owes nothing and finishes. */
  lemma ShorterSkips(h: Hash, s: Store, added: seq<GrantEvent>, r: OutboxRow)
    requires Injective(h) && Typed(s, NAMES)
    requires s.served == map[] && Written(s, NAMES.grants) == Written(Start0(h), NAMES.grants) + EventEntries(added)
    requires forall e :: e in added ==> e.workId == "w2"
    requires RowEntry(r) in Written(s, NAMES.outbox) && r.outboxId == EffectId(h, "retry-01", "x:g", OUTBOX)
    ensures var c := Shorter(h);
      var snapshot := Snapshot(c, s);
      && Selected(c, Resolved("x:g", None, snapshot), 8) && GrantIds(snapshot) == {"x:g"} && !Clear(c, s, "x:g")
      && Resolved("x:g", None, snapshot).status == Active
  {
    var c := Shorter(h);
    forall e ensures e in Snapshot(c, s) <==> e == Given(h, "x:g", "w1") {
      SnapshotMembers(c, s, e);
      LogOf(h, s, added, e);
    }
    hide Snapshot, Typed, Written, EffectId, Start0;
    OnlyGranted(c, Snapshot(c, s), Given(h, "x:g", "w1"), 8);
    InHasId(Written(s, NAMES.outbox), RowEntry(r));
  }

  /** Nothing fires, nothing is owed, nothing moves. */
  lemma NothingMoves(c: Config, s: Store, snapshot: seq<GrantEvent>, at: Instant)
    requires Injective(c.h) && c.names == NAMES && GrantIds(snapshot) == {"x:g"} && !Clear(c, s, "x:g")
    requires Typed(s, NAMES)
    requires Written(s, NAMES.notices) == [] && Served(s, NAMES.outbox) == []
    requires forall x :: x in Written(s, NAMES.outbox) ==> exists y :: x == RowEntry(y) && y.operationId == "retry-01:x"
    requires c.operationId == "retry-01"
    ensures var mid := Phase1(c, s, snapshot, at, map[], Gids(snapshot));
      && Typed(mid, NAMES) && mid.served == s.served
      && (forall k :: Written(mid, k) == Written(s, k)) && Owed(c, mid) == []
  {
    NamesDistinct();
    hide EffectId, Resolved, Selected, Clear, Phase1, Typed, Injective, Written;
    var gids := Gids(snapshot);
    GidsAscend(snapshot);
    Phase1Shape(c, s, snapshot, at, map[], gids);
    Phase1Typed(c, s, snapshot, at, map[], gids);
    OnlyMember(snapshot, "x:g");
    assert !Fires(c, s, snapshot, at, "x:g");
    NoneFired(c, s, snapshot, at, map[], gids);
    assert EventEntries([]) == [] && RowEntries([]) == [];
    var mid := Phase1(c, s, snapshot, at, map[], gids);
    assert Written(s, NAMES.grants) + [] == Written(s, NAMES.grants)
      && Written(s, NAMES.outbox) + [] == Written(s, NAMES.outbox);
    NothingOwed(c, mid, "retry-01:x");
  }

  lemma OnlyMember(snapshot: seq<GrantEvent>, gid: string)
    requires GrantIds(snapshot) == {gid}
    ensures forall g :: g in Gids(snapshot) ==> g == gid
  {
  }

  lemma EmptyOrMember<T>(s: seq<T>)
    ensures s == [] || exists x :: x in s
  {
    if s != [] {
      assert s[0] in s;
    }
  }

  lemma {:induction false} NoneFired(c: Config, s: Store, snapshot: seq<GrantEvent>, at: Instant,
                                     drafts: map<string, Draft>, gids: seq<string>)
    requires forall g :: g in gids ==> !Fires(c, s, snapshot, at, g)
    ensures FiredEvents(c, s, snapshot, at, drafts, gids) == [] && FiredRows(c, s, snapshot, at, drafts, gids) == []
  {
    hide Fires;
    if gids != [] {
      NoneFired(c, s, snapshot, at, drafts, gids[..|gids| - 1]);
      assert gids[|gids| - 1] in gids;
    }
  }

  lemma OtherOperations(b: Bucket, op: string, x: Doc)
    requires forall e :: e in b ==> exists y :: e == RowEntry(y) && y.operationId == op
    requires x in DocsOf(b)
    ensures Field(x, "operation_id") == Some(op)
  {
    var i :| 0 <= i < |b| && DocsOf(b)[i] == x;
    assert b[i] in b;
  }

  lemma NothingOwed(c: Config, s: Store, op: string)
    requires Typed(s, c.names) && c.operationId != op && Served(s, c.names.outbox) == []
    requires forall x :: x in Written(s, c.names.outbox) ==> exists y :: x == RowEntry(y) && y.operationId == op
    ensures Owed(c, s) == []
  {
    var b := Written(s, c.names.outbox);
    hide Typed, Select, Field, Satisfies, RowEntry, Written, Served;
    assert Served(s, c.names.outbox) + DocsOf(b) == DocsOf(b);
    NoneSelected(b, op, c.operationId);
  }

  lemma NoneSelected(b: Bucket, op: string, other: string)
    requires forall e :: e in b ==> exists y :: e == RowEntry(y) && y.operationId == op
    requires op != other
    ensures Select(DocsOf(b), map["operation_id" := other]) == []
  {
    hide RowEntry, Field;
    var filters := map["operation_id" := other];
    forall x | x in DocsOf(b) ensures !Satisfies(x, filters) {
      OtherOperations(b, op, x);
      assert "operation_id" in filters;
    }
    hide Satisfies;
    EmptyOrMember(Select(DocsOf(b), filters));
  }

  /** The last world: the second attempt is done, and what it selected was left alone. */
  ghost predicate LeftAlone(d: Deployment, w: World, c: Config) {
    && Attempting(w, 1, Finished) && w.attempts[1].c == c && Selects(w.attempts[1], "x:g")
    && !Terminated(d, w.store, c.operationId, "x:g") && !OwnNotice(d, w.store, c.operationId, "x:g")
    && Typed(w.store, c.names) && Resolved("x:g", None, Snapshot(c, w.store)).status == Active
  }

  /** Operations "retry-01" and "retry-01:x": the first reports success, and its selected grant is still active. */
  lemma OverlapLeavesAGrantActive(h: Hash) returns (run: seq<World>, steps: seq<Step>)
    requires Injective(h)
    ensures IsRun(Deployment(h, NAMES, USES), run, steps)
    ensures LeftAlone(Deployment(h, NAMES, USES), run[|run| - 1], Shorter(h))
  {
    var d, c := Deployment(h, NAMES, USES), Shorter(h);
    NamesDistinct();
    StartParts(h);
    StartIsInitial(h);
    var s, a, run0, steps0, added, r := LongerCommits(h);
    ShorterIds(h, d, s, r, run0, steps0, a);
    hide *;
    ShorterParts(h, d);
    Belonging(d, a);
    ShorterSkips(h, s, added, r);
    var snapshot := Snapshot(c, s);
    NothingMoves(c, s, snapshot, 8);
    var mid := Phase1(c, s, snapshot, 8, map[], Gids(snapshot));
    var run1, steps1 := CallIsARun(d, [a], c, s, 8, map[]);
    NoRows(c, mid);
    var last := Over(c, s, 8, []);
    Joined(d, run0, steps0, run1, steps1, World(Start0(h), []), World(s, [a]), With([a], mid, last));
    run, steps := run0 + run1[1..], steps0 + steps1;
    ChainIsRun(d, run, steps, World(Start0(h), []), With([a], mid, last));
    ShorterSkips(h, mid, added, r);
    Conclude(h, d, run, steps, a, mid, c, s, r);
  }

  lemma ShorterIds(h: Hash, d: Deployment, s: Store, r: OutboxRow, run: seq<World>, steps: seq<Step>, a: Attempt)
    requires Injective(h) && d == Deployment(h, NAMES, USES) && Initial(d, World(Start0(h), []))
    requires From(d, run, steps, World(Start0(h), []), World(s, [a])) && RowEntry(r) in Written(s, NAMES.outbox)
    requires r.operationId == "retry-01:x" && r.grantId == "g"
    ensures r.outboxId == EffectId(h, "retry-01", "x:g", OUTBOX)
    ensures Operation("retry-01:x", "g") == Operation("retry-01", "x:g")
  {
    hide Initial, EffectId, Start0, Took;
    EveryStateIsInOrder(d, run, steps, |run| - 1);
    hide Injective;
    RowIdOf(d, s, RowEntry(r));
    assert Operation("retry-01:x", "g") == Operation("retry-01", "x:g");
    SameText(h);
  }

  lemma SameText(h: Hash)
    ensures EffectId(h, "retry-01:x", "g", OUTBOX) == EffectId(h, "retry-01", "x:g", OUTBOX)
  {
    assert Operation("retry-01:x", "g") == Operation("retry-01", "x:g");
  }

  lemma ShorterParts(h: Hash, d: Deployment)
    requires d == Deployment(h, NAMES, USES)
    ensures Shorter(h).names == NAMES && Shorter(h).operationId == "retry-01" && Shorter(h).h == h
    ensures Belongs(d, Shorter(h))
  {
  }

  lemma Belonging(d: Deployment, a: Attempt)
    requires Belongs(d, a.c)
    ensures AllBelong(d, [a])
  {
  }

  lemma NoRows(c: Config, mid: Store)
    requires Typed(mid, c.names) && Owed(c, mid) == []
    ensures Sorting.SortBy(RowLeq, Owed(c, mid)) == [] && Phase2(c, mid, []) == mid
  {
  }

  lemma ChainIsRun(d: Deployment, run: seq<World>, steps: seq<Step>, w: World, t: World)
    requires From(d, run, steps, w, t) && Initial(d, w)
    ensures IsRun(d, run, steps) && run[|run| - 1] == t
  {
  }

  lemma Conclude(h: Hash, d: Deployment, run: seq<World>, steps: seq<Step>, a: Attempt, mid: Store, c: Config, s: Store,
                 r: OutboxRow)
    requires IsRun(d, run, steps) && c == Shorter(h) && Typed(s, NAMES) && Typed(mid, NAMES)
    requires d == Deployment(h, NAMES, USES)
    requires run[|run| - 1] == With([a], mid, Over(c, s, 8, []))
    requires Selected(c, Resolved("x:g", None, Snapshot(c, s)), 8)
    requires Resolved("x:g", None, Snapshot(c, mid)).status == Active
    requires RowEntry(r) in Written(mid, NAMES.outbox) && r.operationId == "retry-01:x" && r.grantId == "g"
    requires Operation("retry-01:x", "g") == Operation("retry-01", "x:g")
    ensures LeftAlone(d, run[|run| - 1], c)
  {
    var w := run[|run| - 1];
    var b := Over(c, s, 8, []);
    assert w.attempts[1] == b && b.stage == Finished && b.c == c && b.at == 8 && b.snapshot == Snapshot(c, s);
    hide IsRun, Typed, Snapshot, Resolved, Over, Written, Operation, Terminated, OwnNotice, Selected;
    assert Selects(b, "x:g");
    FinishedAttemptIsComplete(d, run, steps, |run| - 1, 1, "x:g");
    assert Foreign(d, mid, "retry-01", "x:g");
  }
}
