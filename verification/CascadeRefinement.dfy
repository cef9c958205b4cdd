/**
 * The straight-line cascade is one interleaving of the step machine: what the machine guarantees, every call enjoys.
 */
module CascadeRefinement {
  import opened Scopes
  import opened Resolver
  import opened Effects
  import opened Gateway
  import opened Cascade
  import opened CascadeMachine
  import opened Sorting
  import Lattice
  import Text

  /** Consecutive worlds are steps of the machine. */
  ghost predicate Chain(d: Deployment, run: seq<World>, steps: seq<Step>) {
    |run| == |steps| + 1 && forall k :: 0 < k < |run| ==> Took(d, run[k - 1], steps[k - 1], run[k])
  }

  ghost predicate From(d: Deployment, run: seq<World>, steps: seq<Step>, w: World, t: World) {
    Chain(d, run, steps) && run[0] == w && run[|run| - 1] == t
  }

  /** A world in which one more attempt has joined the others. */
  function With(base: seq<Attempt>, s: Store, a: Attempt): World {
    World(s, base + [a])
  }

  ghost predicate Belongs(d: Deployment, c: Config) {
    c.h == d.h && c.names == d.names && c.order == d.order
  }

  ghost predicate AllBelong(d: Deployment, base: seq<Attempt>) {
    forall a :: a in base ==> Belongs(d, a.c)
  }

  lemma OneStep(d: Deployment, run: seq<World>, steps: seq<Step>, w: World, t: World, s: Step, u: World)
    requires From(d, run, steps, w, t) && Took(d, t, s, u)
    ensures From(d, run + [u], steps + [s], w, u)
  {
    hide Took;
    var more, all := run + [u], steps + [s];
    forall k | 0 < k < |more| ensures Took(d, more[k - 1], all[k - 1], more[k]) {
      if k < |run| {
        assert more[k - 1] == run[k - 1] && all[k - 1] == steps[k - 1] && more[k] == run[k];
      }
    }
  }

  /** The new attempt takes a step; the others stand still. */
  lemma ActorTakes(d: Deployment, base: seq<Attempt>, s: Store, a: Attempt, step: Step)
    requires AllBelong(d, base) && Belongs(d, a.c)
    requires Enabled(d, With(base, s, a), step) && Actor(step) == Some(|base|)
    ensures Took(d, With(base, s, a), step,
                 With(base, NextStore(d, With(base, s, a), step), NextAttempt(d, With(base, s, a), step, a)))
  {
    hide Enabled, NextStore, NextAttempt;
    var w := With(base, s, a);
    assert w.attempts[|base|] == a;
    var b := NextAttempt(d, w, step, a);
    assert (base + [a])[|base| := b] == base + [b];
    assert step.Start? ==> Actor(step) == None;
  }

  function Passing(c: Config, snapshot: seq<GrantEvent>, at: Instant, k: nat): Attempt {
    Attempt(c, Terminating, snapshot, at, k, None, [], 0)
  }

  function Sending(c: Config, snapshot: seq<GrantEvent>, at: Instant, k: nat, rows: seq<OutboxRow>,
                   sent: nat): Attempt {
    Attempt(c, Delivering, snapshot, at, k, None, rows, sent)
  }

  /** Start, read, take the clock. */
  lemma Opening(d: Deployment, base: seq<Attempt>, c: Config, before: Store, at: Instant)
    returns (run: seq<World>, steps: seq<Step>)
    requires AllBelong(d, base) && Belongs(d, c) && Typed(before, c.names)
    ensures From(d, run, steps, World(before, base), With(base, before, Passing(c, Snapshot(c, before), at, 0)))
  {
    hide Typed, Snapshot;
    var i := |base|;
    var w := World(before, base);
    var a := Attempt(c, Begun, [], 0, 0, None, [], 0);
    run, steps := [w], [];
    assert Took(d, w, Start(c), With(base, before, a));
    OneStep(d, run, steps, w, w, Start(c), With(base, before, a));
    run, steps := run + [With(base, before, a)], steps + [Start(c)];
    ActorTakes(d, base, before, a, ReadSnapshot(i));
    var b := a.(stage := SnapshotRead, snapshot := Snapshot(c, before));
    OneStep(d, run, steps, w, With(base, before, a), ReadSnapshot(i), With(base, before, b));
    run, steps := run + [With(base, before, b)], steps + [ReadSnapshot(i)];
    ActorTakes(d, base, before, b, TakeClock(i, at));
    OneStep(d, run, steps, w, With(base, before, b), TakeClock(i, at),
            With(base, before, Passing(c, Snapshot(c, before), at, 0)));
    run, steps := run + [With(base, before, Passing(c, Snapshot(c, before), at, 0))], steps + [TakeClock(i, at)];
  }

  /** One grant of phase 1: skipped, or drafted and committed. */
  lemma OneGrant(d: Deployment, base: seq<Attempt>, c: Config, s: Store, snapshot: seq<GrantEvent>, at: Instant,
                 drafts: map<string, Draft>, k: nat, run0: seq<World>, steps0: seq<Step>, w: World)
                   returns (run: seq<World>, steps: seq<Step>)
    requires AllBelong(d, base) && Belongs(d, c) && k < |Gids(snapshot)|
    requires From(d, run0, steps0, w, With(base, s, Passing(c, snapshot, at, k)))
    ensures From(d, run, steps, w,
                 With(base, TerminateOne(c, s, snapshot, at, drafts, Gids(snapshot)[k]),
                      Passing(c, snapshot, at, k + 1)))
  {
    hide Gids, Resolved, CreateAll, Pair, From, Selected;
    var i, gid, a := |base|, Gids(snapshot)[k], Passing(c, snapshot, at, k);
    assert With(base, s, a).attempts[i] == a;
    if Selected(c, Resolved(gid, None, snapshot), at) {
      var x := DraftFor(drafts, gid);
      var b := a.(draft := Some(x));
      ActorTakes(d, base, s, a, DraftNotice(i, x));
      OneStep(d, run0, steps0, w, With(base, s, a), DraftNotice(i, x), With(base, s, b));
      assert With(base, s, b).attempts[i] == b;
      ActorTakes(d, base, s, b, CommitPair(i));
      var t := With(base, TerminateOne(c, s, snapshot, at, drafts, gid), Passing(c, snapshot, at, k + 1));
      OneStep(d, run0 + [With(base, s, b)], steps0 + [DraftNotice(i, x)], w, With(base, s, b), CommitPair(i), t);
      run, steps := run0 + [With(base, s, b)] + [t], steps0 + [DraftNotice(i, x)] + [CommitPair(i)];
    } else {
      ActorTakes(d, base, s, a, SkipGrant(i));
      var t := With(base, s, Passing(c, snapshot, at, k + 1));
      OneStep(d, run0, steps0, w, With(base, s, a), SkipGrant(i), t);
      run, steps := run0 + [t], steps0 + [SkipGrant(i)];
    }
  }

  lemma {:induction false} Phase1Run(d: Deployment, base: seq<Attempt>, c: Config, s: Store, snapshot: seq<GrantEvent>,
                                     at: Instant, drafts: map<string, Draft>, k: nat, run0: seq<World>,
                                     steps0: seq<Step>, w: World)
    returns (run: seq<World>, steps: seq<Step>)
    requires AllBelong(d, base) && Belongs(d, c) && k <= |Gids(snapshot)|
    requires From(d, run0, steps0, w, With(base, s, Passing(c, snapshot, at, 0)))
    ensures From(d, run, steps, w,
                 With(base, Phase1(c, s, snapshot, at, drafts, Gids(snapshot)[..k]), Passing(c, snapshot, at, k)))
  {
    hide *;
    PhaseSteps(c, s, snapshot, at, drafts, Gids(snapshot), 0);
    if k == 0 {
      run, steps := run0, steps0;
    } else {
      run, steps := Phase1Run(d, base, c, s, snapshot, at, drafts, k - 1, run0, steps0, w);
      PhaseSteps(c, s, snapshot, at, drafts, Gids(snapshot), k - 1);
      run, steps :=
        OneGrant(d, base, c, Phase1(c, s, snapshot, at, drafts, Gids(snapshot)[..k - 1]), snapshot, at, drafts, k - 1,
                 run, steps, w);
    }
  }

  lemma {:induction false} Phase2Run(d: Deployment, base: seq<Attempt>, c: Config, s: Store, snapshot: seq<GrantEvent>,
                                     at: Instant, n: nat, rows: seq<OutboxRow>, k: nat, run0: seq<World>,
                                     steps0: seq<Step>, w: World)
    returns (run: seq<World>, steps: seq<Step>)
    requires AllBelong(d, base) && Belongs(d, c) && k <= |rows|
    requires From(d, run0, steps0, w, With(base, s, Sending(c, snapshot, at, n, rows, 0)))
    ensures From(d, run, steps, w, With(base, Phase2(c, s, rows[..k]), Sending(c, snapshot, at, n, rows, k)))
  {
    hide From, Phase2, CreateAll, NoticeWrite;
    Phase2Steps(c, s, rows, 0);
    if k == 0 {
      run, steps := run0, steps0;
    } else {
      run, steps := Phase2Run(d, base, c, s, snapshot, at, n, rows, k - 1, run0, steps0, w);
      Phase2Steps(c, s, rows, k - 1);
      var mid, a := Phase2(c, s, rows[..k - 1]), Sending(c, snapshot, at, n, rows, k - 1);
      assert With(base, mid, a).attempts[|base|] == a;
      ActorTakes(d, base, mid, a, Deliver(|base|));
      var t := With(base, Phase2(c, s, rows[..k]), Sending(c, snapshot, at, n, rows, k));
      OneStep(d, run, steps, w, With(base, mid, a), Deliver(|base|), t);
      run, steps := run + [t], steps + [Deliver(|base|)];
    }
  }

  lemma ReadsOutbox(d: Deployment, base: seq<Attempt>, c: Config, mid: Store, snapshot: seq<GrantEvent>, at: Instant)
    requires AllBelong(d, base) && Belongs(d, c) && Typed(mid, c.names)
    ensures var n := |Gids(snapshot)|;
      Took(d, With(base, mid, Passing(c, snapshot, at, n)), ReadOutbox(|base|),
           With(base, mid, Sending(c, snapshot, at, n, SortBy(RowLeq, Owed(c, mid)), 0)))
  {
    hide Typed, Gids, SortBy, Owed;
    var a := Passing(c, snapshot, at, |Gids(snapshot)|);
    assert With(base, mid, a).attempts[|base|] == a;
    ActorTakes(d, base, mid, a, ReadOutbox(|base|));
  }

  lemma Finishes(d: Deployment, base: seq<Attempt>, s: Store, a: Attempt)
    requires AllBelong(d, base) && Belongs(d, a.c) && a.stage == Delivering && a.sent == |a.rows|
    ensures Took(d, With(base, s, a), Finish(|base|), With(base, s, a.(stage := Finished)))
  {
    assert With(base, s, a).attempts[|base|] == a;
    ActorTakes(d, base, s, a, Finish(|base|));
  }

  lemma CompletedParts(c: Config, before: Store, after: Store, at: Instant, drafts: map<string, Draft>,
                       r: CascadeResult)
    requires Completed(c, before, after, at, drafts, r)
    ensures Typed(before, c.names)
    ensures var mid := Phase1(c, before, Snapshot(c, before), at, drafts, Gids(Snapshot(c, before)));
      && Typed(mid, c.names)
      && after == Phase2(c, mid, SortBy(RowLeq, Owed(c, mid)))
      && r.receipts == Receipts(c, SortBy(RowLeq, Owed(c, mid)))
  {
    hide Typed, Snapshot, Phase1, Phase2, Owed, SortBy, Receipts, NewlyCommitted, Affected, GrantIds, Text.Ascending,
         Lattice.Derivation;
  }

  lemma SendingParts(c: Config, snapshot: seq<GrantEvent>, at: Instant, n: nat, rows: seq<OutboxRow>)
    ensures var b := Sending(c, snapshot, at, n, rows, |rows|);
      b.c == c && b.rows == rows && b.sent == |rows| && b.stage == Delivering
  {
  }

  lemma {:induction false} Phase1Typed(c: Config, s: Store, snapshot: seq<GrantEvent>, at: Instant,
                                       drafts: map<string, Draft>, gids: seq<string>)
    requires Typed(s, c.names) && c.names.grants != c.names.outbox
    ensures Typed(Phase1(c, s, snapshot, at, drafts, gids), c.names)
  {
    hide Typed, Resolved, CreateAll, Pair;
    if gids != [] {
      var gid := gids[|gids| - 1];
      Phase1Typed(c, s, snapshot, at, drafts, gids[..|gids| - 1]);
      var st := Resolved(gid, None, snapshot);
      if Selected(c, st, at) {
        PairTyped(c, Phase1(c, s, snapshot, at, drafts, gids[..|gids| - 1]), st, DraftFor(drafts, gid));
      }
    }
  }

  /** The attempt of a whole call, when it is over. */
  function Over(c: Config, before: Store, at: Instant, rows: seq<OutboxRow>): Attempt
    requires Typed(before, c.names)
  {
    Sending(c, Snapshot(c, before), at, |Gids(Snapshot(c, before))|, rows, |rows|).(stage := Finished)
  }

  /** Every call, from any store and beside any other attempts, is a run of the machine in which no one else moves. */
  lemma CallIsARun(d: Deployment, base: seq<Attempt>, c: Config, before: Store, at: Instant, drafts: map<string, Draft>)
    returns (run: seq<World>, steps: seq<Step>)
    requires AllBelong(d, base) && Belongs(d, c) && Typed(before, c.names) && c.names.grants != c.names.outbox
    ensures var mid := Phase1(c, before, Snapshot(c, before), at, drafts, Gids(Snapshot(c, before)));
      && Typed(mid, c.names)
      && var rows := SortBy(RowLeq, Owed(c, mid));
         From(d, run, steps, World(before, base), With(base, Phase2(c, mid, rows), Over(c, before, at, rows)))
  {
    hide *;
    var snapshot := Snapshot(c, before);
    var gids, w := Gids(snapshot), World(before, base);
    var n := |gids|;
    var mid := Phase1(c, before, snapshot, at, drafts, gids);
    Phase1Typed(c, before, snapshot, at, drafts, gids);
    var rows := SortBy(RowLeq, Owed(c, mid));
    var b := Sending(c, snapshot, at, n, rows, |rows|);
    SendingParts(c, snapshot, at, n, rows);
    OverIs(c, before, at, rows);
    run, steps := Opening(d, base, c, before, at);
    run, steps := Phase1Run(d, base, c, before, snapshot, at, drafts, n, run, steps, w);
    assert gids[..n] == gids && rows[..|rows|] == rows;
    ReadsOutbox(d, base, c, mid, snapshot, at);
    var t := With(base, mid, Sending(c, snapshot, at, n, rows, 0));
    OneStep(d, run, steps, w, With(base, mid, Passing(c, snapshot, at, n)), ReadOutbox(|base|), t);
    run, steps := Phase2Run(d, base, c, mid, snapshot, at, n, rows, |rows|, run + [t], steps + [ReadOutbox(|base|)], w);
    var after := Phase2(c, mid, rows);
    Finishes(d, base, after, b);
    OneStep(d, run, steps, w, With(base, after, b), Finish(|base|), With(base, after, b.(stage := Finished)));
    run, steps := run + [With(base, after, b.(stage := Finished))], steps + [Finish(|base|)];
  }

  lemma OverIs(c: Config, before: Store, at: Instant, rows: seq<OutboxRow>)
    requires Typed(before, c.names)
    ensures var snapshot := Snapshot(c, before);
      Over(c, before, at, rows) == Sending(c, snapshot, at, |Gids(snapshot)|, rows, |rows|).(stage := Finished)
  {
  }

  /** Refinement: whatever a completed call did and reported, a run of the machine in which no one else moves does. */
  lemma UninterruptedCallIsARun(d: Deployment, base: seq<Attempt>, c: Config, before: Store, after: Store, at: Instant,
                                drafts: map<string, Draft>, r: CascadeResult)
    returns (run: seq<World>, steps: seq<Step>, last: Attempt)
    requires AllBelong(d, base) && Belongs(d, c) && Completed(c, before, after, at, drafts, r)
    requires c.names.grants != c.names.outbox
    ensures From(d, run, steps, World(before, base), With(base, after, last))
    ensures last.stage == Finished && last.c == c && r.receipts == Receipts(c, last.rows)
  {
    hide Phase1, Phase2, Typed, Snapshot, Gids, Owed, SortBy, From, Receipts, Chain;
    CompletedParts(c, before, after, at, drafts, r);
    hide Completed;
    run, steps := CallIsARun(d, base, c, before, at, drafts);
    var mid := Phase1(c, before, Snapshot(c, before), at, drafts, Gids(Snapshot(c, before)));
    last := Over(c, before, at, SortBy(RowLeq, Owed(c, mid)));
  }

  /** Two runs end to end. */
  lemma Joined(d: Deployment, a: seq<World>, asteps: seq<Step>, b: seq<World>, bsteps: seq<Step>, w: World, t: World,
               u: World)
    requires From(d, a, asteps, w, t) && From(d, b, bsteps, t, u)
    ensures From(d, a + b[1..], asteps + bsteps, w, u)
  {
    hide Took;
    var run, steps := a + b[1..], asteps + bsteps;
    var n := |a|;
    forall k | 0 < k < |run| ensures Took(d, run[k - 1], steps[k - 1], run[k]) {
      if k < n {
        assert run[k - 1] == a[k - 1] && steps[k - 1] == asteps[k - 1] && run[k] == a[k];
      } else {
        assert run[k] == b[k - n + 1] && steps[k - 1] == bsteps[k - n];
        assert run[k - 1] == b[k - n];
      }
    }
  }
}
