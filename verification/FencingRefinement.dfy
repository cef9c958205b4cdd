/** The gateway's leased write, step by step, in the fencing protocol. */
module FencingRefinement {
  import opened Scopes
  import opened Lease
  import opened Gateway
  import F = Fencing

  /** Steps taken one after another, from any world. */
  ghost predicate Chain(run: seq<F.World>, steps: seq<F.Step>) {
    |run| == |steps| + 1 && forall k :: 0 < k < |run| ==> F.Took(run[k - 1], steps[k - 1], run[k])
  }

  /** The gateway's lease check passes exactly when the protocol's check of the same write does. */
  lemma CheckIsEnforceLease(ledger: seq<LeaseEvent>, f: F.InFlight, sa: string, role: string, collection: string)
    requires f.leaseId != ""
    ensures var r := LeaseCheck(Some(ledger), sa, role, collection, Some(f.leaseId), f.at);
      && (r.Done? <==> F.Checked(ledger, f).progress == F.Passed)
      && (r == Denied(Denial(sa, role, collection, LEASE_POLICY)) <==> F.Checked(ledger, f).progress == F.Refused)
  {
    hide IsActive;
  }

  /** The worlds of one leased write: asked at `now`, checked against the ledger as it stands, committed if `lands`. */
  ghost function Worlds(w: F.World, leaseId: string, now: Instant, lands: bool): seq<F.World> {
    var asked := F.InFlight(leaseId, now, 0, F.Asked);
    var checked := F.Checked(w.ledger, asked);
    var w1 := w.(clock := now, writes := w.writes + [asked]);
    var w2 := w1.(writes := w.writes + [checked]);
    [w, w1, w2] + if lands then [w2.(writes := w.writes + [checked.(progress := F.Committed)])] else []
  }

  ghost function WriteSteps(w: F.World, leaseId: string, now: Instant, lands: bool): seq<F.Step> {
    [F.Ask(leaseId, now - w.clock), F.Check(|w.writes|)] + if lands then [F.Commit(|w.writes|)] else []
  }

  lemma WorldsChain(w: F.World, leaseId: string, now: Instant, lands: bool)
    requires w.clock < now && (lands ==> IsActive(w.ledger, leaseId, now))
    ensures Chain(Worlds(w, leaseId, now, lands), WriteSteps(w, leaseId, now, lands))
    ensures var last := Worlds(w, leaseId, now, lands)[if lands then 3 else 2];
      && last.ledger == w.ledger && last.tasks == w.tasks
      && F.InProgress(last, |w.writes|, if lands then F.Committed else if IsActive(w.ledger, leaseId, now) then F.Passed
                      else F.Refused)
  {
    hide IsActive;
    var run, steps, n := Worlds(w, leaseId, now, lands), WriteSteps(w, leaseId, now, lands), |w.writes|;
    assert F.Took(run[0], steps[0], run[1]);
    assert run[1].writes[n := F.Checked(w.ledger, run[1].writes[n])] == run[2].writes;
    assert F.Took(run[1], steps[1], run[2]);
    if lands {
      assert run[2].writes[n := run[2].writes[n].(progress := F.Committed)] == run[3].writes;
      assert F.Took(run[2], steps[2], run[3]);
    }
  }

  /** A chain from a reachable world is the rest of a run, so everything proved of runs is true of it. */
  lemma ChainExtendsRun(before: seq<F.World>, done: seq<F.Step>, run: seq<F.World>, steps: seq<F.Step>)
    requires F.IsRun(before, done) && Chain(run, steps) && run[0] == before[|before| - 1]
    ensures F.IsRun(before + run[1..], done + steps)
  {
    hide F.Took;
    var all, taken := before + run[1..], done + steps;
    forall k | 0 < k < |all| ensures F.Took(all[k - 1], taken[k - 1], all[k]) {
      if k >= |before| {
        var j := k - |before| + 1;
        assert F.Took(run[j - 1], steps[j - 1], run[j]);
      }
    }
  }

  /** A lease the protocol can be asked about. */
  predicate Presented(leaseId: Option<string>) {
    leaseId.Some? && leaseId.value != ""
  }

  /**
   * One write through the gateway under a ledger: the protocol's check followed by its commit when it lands, its check
   * alone when the lease is refused or the id is taken, and no step at all when the policy refuses or no lease is
   * presented. A write presenting none never lands: it is refused, or crashes on the empty id.
   */
  method LeasedWrite(g: AgentGateway, sa: string, role: string, collection: string, id: string, doc: Doc,
                     leaseId: Option<string>, identity: Option<Caller>, now: Instant, ghost w: F.World)
    returns (r: Outcome<Unit>, ghost run: seq<F.World>, ghost steps: seq<F.Step>)
    requires g.ledger != null && g.ledger.events == w.ledger && w.clock < now
    modifies g`denials, g`store
    ensures Chain(run, steps) && run[0] == w && run[|run| - 1].ledger == g.ledger.events
    ensures r.Done? ==> Presented(leaseId) && F.InProgress(run[|run| - 1], |w.writes|, F.Committed)
    ensures r.AlreadyExists? ==> Presented(leaseId) && F.InProgress(run[|run| - 1], |w.writes|, F.Passed)
    ensures r.Denied? && steps != [] ==> F.InProgress(run[|run| - 1], |w.writes|, F.Refused)
    ensures steps != [] ==> Presented(leaseId) && steps == WriteSteps(w, leaseId.value, now, r.Done?)
    ensures steps == [] <==>
      Access(g.policy, g.strict, identity, sa, role, collection, map[], map[]).Refused? || !Presented(leaseId)
    ensures r.Crashed? <==>
      Access(g.policy, g.strict, identity, sa, role, collection, map[], map[]).Allowed? && leaseId == Some("")
    ensures leaseId.None? ==> r.Denied? && g.denials == old(g.denials) + [r.denial]
    ensures if r.Done? then g.store == CreateAll(old(g.store), [Write(collection, id, doc)])
            else g.store == old(g.store)
    ensures r.Done? ==> !Taken(old(g.store), Write(collection, id, doc))
  {
    hide Access, IsActive, CreateAll, Taken, Chain, Worlds, WriteSteps;
    r := g.WriteDocument(sa, role, collection, id, doc, leaseId, identity, now);
    if Access(g.policy, g.strict, identity, sa, role, collection, map[], map[]).Refused? || !Presented(leaseId) {
      run, steps := [w], [];
      NoSteps(w);
    } else {
      run, steps := Worlds(w, leaseId.value, now, r.Done?), WriteSteps(w, leaseId.value, now, r.Done?);
      WorldsChain(w, leaseId.value, now, r.Done?);
      Lengths(w, leaseId.value, now, r.Done?);
    }
  }

  lemma NoSteps(w: F.World)
    ensures Chain([w], [])
  {
  }

  lemma Lengths(w: F.World, leaseId: string, now: Instant, lands: bool)
    ensures var run := Worlds(w, leaseId, now, lands);
      |run| == (if lands then 4 else 3) && run[0] == w && WriteSteps(w, leaseId, now, lands) != []
  {
    hide F.Checked;
  }
}
