/** What a completed revocation guarantees: exact effects, finality, and everything it leaves alone. */
module CascadeTheorems {
  import opened Scopes
  import opened Lattice
  import opened Resolver
  import opened Evaluator
  import opened Effects
  import opened Gateway
  import opened Cascade
  import opened Sorting
  import Text

  // ------------------------------------------------------------------
  // The exact effect of phase 1
  // ------------------------------------------------------------------

  /** Neither id of the grant's pair is taken: the guard of the atomic batch, checkable before the call. */
  predicate Clear(c: Config, s: Store, gid: string) {
    && !HasId(Written(s, c.names.grants), EffectId(c.h, c.operationId, gid, REVOKED_EVENT))
    && !HasId(Written(s, c.names.outbox), EffectId(c.h, c.operationId, gid, OUTBOX))
  }

  /** The grant is selected and its pair is committed. */
  predicate Fires(c: Config, s: Store, snapshot: seq<GrantEvent>, at: Instant, gid: string) {
    Selected(c, Resolved(gid, None, snapshot), at) && Clear(c, s, gid)
  }

  function FiredEvents(c: Config, s: Store, snapshot: seq<GrantEvent>, at: Instant, drafts: map<string, Draft>,
                       gids: seq<string>): seq<GrantEvent> {
    if gids == [] then []
    else
      var gid := gids[|gids| - 1];
      FiredEvents(c, s, snapshot, at, drafts, gids[..|gids| - 1])
      + if Fires(c, s, snapshot, at, gid)
        then [RevokedEventFor(c, Resolved(gid, None, snapshot), DraftFor(drafts, gid))] else []
  }

  function FiredRows(c: Config, s: Store, snapshot: seq<GrantEvent>, at: Instant, drafts: map<string, Draft>,
                     gids: seq<string>): seq<OutboxRow> {
    if gids == [] then []
    else
      var gid := gids[|gids| - 1];
      FiredRows(c, s, snapshot, at, drafts, gids[..|gids| - 1])
      + if Fires(c, s, snapshot, at, gid) then [RowFor(c, Resolved(gid, None, snapshot), DraftFor(drafts, gid))] else []
  }

  function EventEntries(events: seq<GrantEvent>): (b: Bucket)
    ensures |b| == |events| && forall i :: 0 <= i < |b| ==> b[i] == Entry(events[i].eventId, GrantDoc(events[i]))
  {
    seq(|events|, i requires 0 <= i < |events| => Entry(events[i].eventId, GrantDoc(events[i])))
  }

  function RowEntries(rows: seq<OutboxRow>): (b: Bucket)
    ensures |b| == |rows| && forall i :: 0 <= i < |b| ==> b[i] == Entry(rows[i].outboxId, OutboxDoc(rows[i]))
  {
    seq(|rows|, i requires 0 <= i < |rows| => Entry(rows[i].outboxId, OutboxDoc(rows[i])))
  }

  /** `after` is `before` plus these events and rows, and nothing else anywhere. */
  ghost predicate Grew(n: Names, before: Store, after: Store, events: seq<GrantEvent>, rows: seq<OutboxRow>) {
    && after.served == before.served
    && Written(after, n.grants) == Written(before, n.grants) + EventEntries(events)
    && Written(after, n.outbox) == Written(before, n.outbox) + RowEntries(rows)
    && forall k :: k != n.grants && k != n.outbox ==> Written(after, k) == Written(before, k)
  }

  lemma FoldNamesGrant(gid: string, at: Option<Instant>, log: seq<GrantEvent>)
    ensures Resolved(gid, at, log).grantId == gid
  {
    FoldKeepsId(gid, History(gid, at, log));
  }

  /** A fired event is the revoked event of some fired grant among `gids`, and conversely. */
  lemma {:induction false} FiredMembers(c: Config, s: Store, snapshot: seq<GrantEvent>, at: Instant,
                                        drafts: map<string, Draft>, gids: seq<string>)
    ensures forall e :: e in FiredEvents(c, s, snapshot, at, drafts, gids) ==>
      e.grantId in gids && Fires(c, s, snapshot, at, e.grantId)
      && e == RevokedEventFor(c, Resolved(e.grantId, None, snapshot), DraftFor(drafts, e.grantId))
    ensures forall g :: g in gids && Fires(c, s, snapshot, at, g) ==>
      RevokedEventFor(c, Resolved(g, None, snapshot), DraftFor(drafts, g))
        in FiredEvents(c, s, snapshot, at, drafts, gids)
  {
    if gids != [] {
      var gid := gids[|gids| - 1];
      hide Resolved, Selected, Clear;
      FiredMembers(c, s, snapshot, at, drafts, gids[..|gids| - 1]);
      FoldNamesGrant(gid, None, snapshot);
      assert gids == gids[..|gids| - 1] + [gid];
    }
  }

  lemma {:induction false} RowMembers(c: Config, s: Store, snapshot: seq<GrantEvent>, at: Instant,
                                      drafts: map<string, Draft>, gids: seq<string>)
    ensures forall r :: r in FiredRows(c, s, snapshot, at, drafts, gids) ==>
      r.grantId in gids && Fires(c, s, snapshot, at, r.grantId)
      && r == RowFor(c, Resolved(r.grantId, None, snapshot), DraftFor(drafts, r.grantId))
    ensures forall g :: g in gids && Fires(c, s, snapshot, at, g) ==>
      RowFor(c, Resolved(g, None, snapshot), DraftFor(drafts, g)) in FiredRows(c, s, snapshot, at, drafts, gids)
  {
    if gids != [] {
      var gid := gids[|gids| - 1];
      hide Resolved, Selected, Clear;
      RowMembers(c, s, snapshot, at, drafts, gids[..|gids| - 1]);
      FoldNamesGrant(gid, None, snapshot);
      assert gids == gids[..|gids| - 1] + [gid];
    }
  }

  /** Committing other grants' pairs never takes this grant's ids. */
  lemma ClearStays(c: Config, s: Store, t: Store, snapshot: seq<GrantEvent>, at: Instant, drafts: map<string, Draft>,
                   gids: seq<string>, gid: string)
    requires Injective(c.h) && gid !in gids
    requires Grew(c.names, s, t, FiredEvents(c, s, snapshot, at, drafts, gids),
                  FiredRows(c, s, snapshot, at, drafts, gids))
    ensures Clear(c, t, gid) <==> Clear(c, s, gid)
  {
    hide Injective, Resolved, Selected, FiredEvents, FiredRows, EffectId;
    var events, rows := FiredEvents(c, s, snapshot, at, drafts, gids), FiredRows(c, s, snapshot, at, drafts, gids);
    FiredMembers(c, s, snapshot, at, drafts, gids);
    RowMembers(c, s, snapshot, at, drafts, gids);
    forall g | g != gid
      ensures EffectId(c.h, c.operationId, g, REVOKED_EVENT) != EffectId(c.h, c.operationId, gid, REVOKED_EVENT)
      ensures EffectId(c.h, c.operationId, g, OUTBOX) != EffectId(c.h, c.operationId, gid, OUTBOX)
    {
      EffectsSeparateGrants(c, g, gid);
    }
    HasIdConcat(Written(s, c.names.grants), EventEntries(events), EffectId(c.h, c.operationId, gid, REVOKED_EVENT));
    HasIdConcat(Written(s, c.names.outbox), RowEntries(rows), EffectId(c.h, c.operationId, gid, OUTBOX));
    forall i | 0 <= i < |events| ensures events[i].eventId != EffectId(c.h, c.operationId, gid, REVOKED_EVENT) {
      assert events[i] in events;
      FoldNamesGrant(events[i].grantId, None, snapshot);
    }
    forall i | 0 <= i < |rows| ensures rows[i].outboxId != EffectId(c.h, c.operationId, gid, OUTBOX) {
      assert rows[i] in rows;
      FoldNamesGrant(rows[i].grantId, None, snapshot);
    }
  }

  lemma EffectsSeparateGrants(c: Config, g: string, gid: string)
    requires Injective(c.h) && g != gid
    ensures forall x :: ColonFree(x) ==> EffectId(c.h, c.operationId, g, x) != EffectId(c.h, c.operationId, gid, x)
    ensures ColonFree(REVOKED_EVENT) && ColonFree(OUTBOX) && ColonFree(NOTICE) && ColonFree(RECEIPT)
  {
    forall x | ColonFree(x) ensures EffectId(c.h, c.operationId, g, x) != EffectId(c.h, c.operationId, gid, x) {
      EffectIdsAgree(c.h, c.operationId, g, x, c.operationId, gid, x);
      if Operation(c.operationId, g) == Operation(c.operationId, gid) {
        OneOperationSeparatesGrants(c.operationId, g, gid);
      }
    }
  }

  /** A committed pair adds exactly its event and its row. */
  lemma PairGrows(c: Config, s: Store, st: GrantState, d: Draft)
    requires st.activeScope.Some? && st.counterpartyId.Some? && c.names.grants != c.names.outbox
    ensures Clear(c, s, st.grantId) ==>
      Grew(c.names, s, CreateAll(s, Pair(c, st, d)), [RevokedEventFor(c, st, d)], [RowFor(c, st, d)])
    ensures !Clear(c, s, st.grantId) ==> CreateAll(s, Pair(c, st, d)) == s
    ensures AllFree(s, Pair(c, st, d)) <==> Clear(c, s, st.grantId)
  {
    hide EffectId;
    var pair := Pair(c, st, d);
    assert pair == [pair[0], pair[1]] && pair[0] in pair && pair[1] in pair;
    CreateAllCases(s, pair);
    if Clear(c, s, st.grantId) {
      BatchAppends(s, pair);
      TailOfPair(pair[0], pair[1]);
      assert AssignAll(s, pair).served == s.served;
    }
  }

  lemma TailOfPair(a: Write, b: Write)
    requires a.collection != b.collection
    ensures Tail([a, b], a.collection) == [Entry(a.id, a.doc)] && Tail([a, b], b.collection) == [Entry(b.id, b.doc)]
    ensures forall k :: k != a.collection && k != b.collection ==> Tail([a, b], k) == []
  {
    assert [a, b][..1] == [a] && [a][..0] == [];
    forall k ensures Tail([a], k) == if a.collection == k then [Entry(a.id, a.doc)] else [] {
      assert Tail([a][..0], k) == [];
    }
    forall k ensures Tail([a, b], k) == if b.collection == k then Put(Tail([a], k), b.id, b.doc) else Tail([a], k) {
      assert Tail([a, b][..1], k) == Tail([a], k);
    }
  }

  lemma GrewTwice(n: Names, s: Store, t: Store, u: Store, e1: seq<GrantEvent>, r1: seq<OutboxRow>, e2: seq<GrantEvent>,
                  r2: seq<OutboxRow>)
    requires Grew(n, s, t, e1, r1) && Grew(n, t, u, e2, r2)
    ensures Grew(n, s, u, e1 + e2, r1 + r2)
  {
    hide Written;
    EntriesConcat(e1, r1, e2, r2);
    Regroup(Written(s, n.grants), EventEntries(e1), EventEntries(e2));
    Regroup(Written(s, n.outbox), RowEntries(r1), RowEntries(r2));
  }

  lemma Regroup(a: Bucket, b: Bucket, c: Bucket)
    ensures (a + b) + c == a + (b + c)
  {
  }

  lemma EntriesConcat(e1: seq<GrantEvent>, r1: seq<OutboxRow>, e2: seq<GrantEvent>, r2: seq<OutboxRow>)
    ensures EventEntries(e1 + e2) == EventEntries(e1) + EventEntries(e2)
    ensures RowEntries(r1 + r2) == RowEntries(r1) + RowEntries(r2)
  {
  }

  lemma GrewNothing(n: Names, s: Store)
    ensures Grew(n, s, s, [], [])
  {
    assert Written(s, n.grants) + [] == Written(s, n.grants) && Written(s, n.outbox) + [] == Written(s, n.outbox);
  }

  /** Phase 1 appends exactly one revoked event and one row per selected grant whose ids are free, in grant id order. */
  lemma {:induction false} Phase1Shape(c: Config, s: Store, snapshot: seq<GrantEvent>, at: Instant,
                                       drafts: map<string, Draft>, gids: seq<string>)
    requires Injective(c.h) && c.names.grants != c.names.outbox && Text.Ascending(gids)
    ensures Grew(c.names, s, Phase1(c, s, snapshot, at, drafts, gids),
                 FiredEvents(c, s, snapshot, at, drafts, gids), FiredRows(c, s, snapshot, at, drafts, gids))
    ensures NewlyCommitted(c, s, snapshot, at, drafts, gids) == |FiredEvents(c, s, snapshot, at, drafts, gids)|
  {
    hide Grew, TerminateOne, NewOne, Fires, Injective, Text.Ascending;
    if gids == [] {
      GrewNothing(c.names, s);
    } else {
      var front, gid := gids[..|gids| - 1], gids[|gids| - 1];
      AscendingFront(gids);
      Phase1Shape(c, s, snapshot, at, drafts, front);
      NotInFront(gids, |gids| - 1);
      Phase1LastStep(c, s, snapshot, at, drafts, front, gid);
      assert gids == front + [gid];
    }
  }

  lemma AscendingFront(gids: seq<string>)
    requires Text.Ascending(gids) && gids != []
    ensures Text.Ascending(gids[..|gids| - 1])
  {
  }

  lemma Phase1LastStep(c: Config, s: Store, snapshot: seq<GrantEvent>, at: Instant, drafts: map<string, Draft>,
                       front: seq<string>, gid: string)
    requires Injective(c.h) && c.names.grants != c.names.outbox && gid !in front
    requires Grew(c.names, s, Phase1(c, s, snapshot, at, drafts, front),
                  FiredEvents(c, s, snapshot, at, drafts, front), FiredRows(c, s, snapshot, at, drafts, front))
    requires NewlyCommitted(c, s, snapshot, at, drafts, front) == |FiredEvents(c, s, snapshot, at, drafts, front)|
    ensures var gids := front + [gid];
      && Grew(c.names, s, Phase1(c, s, snapshot, at, drafts, gids),
              FiredEvents(c, s, snapshot, at, drafts, gids), FiredRows(c, s, snapshot, at, drafts, gids))
      && NewlyCommitted(c, s, snapshot, at, drafts, gids) == |FiredEvents(c, s, snapshot, at, drafts, gids)|
  {
    hide Injective, Resolved, Grew, Clear, CreateAll, AllFree, Pair, RevokedEventFor, RowFor, Taken;
    var gids := front + [gid];
    assert gids[..|gids| - 1] == front;
    var mid := Phase1(c, s, snapshot, at, drafts, front);
    var st, d := Resolved(gid, None, snapshot), DraftFor(drafts, gid);
    FoldNamesGrant(gid, None, snapshot);
    ClearStays(c, s, mid, snapshot, at, drafts, front, gid);
    assert FiredEvents(c, s, snapshot, at, drafts, gids) == FiredEvents(c, s, snapshot, at, drafts, front)
      + if Fires(c, s, snapshot, at, gid) then [RevokedEventFor(c, st, d)] else [];
    assert FiredRows(c, s, snapshot, at, drafts, gids) == FiredRows(c, s, snapshot, at, drafts, front)
      + if Fires(c, s, snapshot, at, gid) then [RowFor(c, st, d)] else [];
    if Selected(c, st, at) {
      PairGrows(c, mid, st, d);
      NewOneCounts(c, mid, st, d);
      if Clear(c, s, gid) {
        GrewTwice(c.names, s, mid, CreateAll(mid, Pair(c, st, d)), FiredEvents(c, s, snapshot, at, drafts, front),
                  FiredRows(c, s, snapshot, at, drafts, front), [RevokedEventFor(c, st, d)], [RowFor(c, st, d)]);
      }
    }
    if !Fires(c, s, snapshot, at, gid) {
      assert FiredEvents(c, s, snapshot, at, drafts, gids) == FiredEvents(c, s, snapshot, at, drafts, front);
      assert FiredRows(c, s, snapshot, at, drafts, gids) == FiredRows(c, s, snapshot, at, drafts, front);
      assert Phase1(c, s, snapshot, at, drafts, gids) == mid;
    }
  }

  lemma NewOneCounts(c: Config, s: Store, st: GrantState, d: Draft)
    requires st.activeScope.Some? && st.counterpartyId.Some?
    ensures |Pair(c, st, d)| == 2
    ensures (forall i :: 0 <= i < 2 ==> !Taken(s, Pair(c, st, d)[i])) <==> AllFree(s, Pair(c, st, d))
  {
    var pair := Pair(c, st, d);
    assert pair[0] in pair && pair[1] in pair;
  }

  // ------------------------------------------------------------------
  // Phase 2, and the log the readers see afterwards
  // ------------------------------------------------------------------

  /** Delivery touches the notices and nothing else, and leaves a notice under the id of every row. */
  lemma {:induction false} Phase2Frame(c: Config, s: Store, rows: seq<OutboxRow>)
    ensures var t := Phase2(c, s, rows);
      && t.served == s.served && Extends(s, t)
      && (forall k :: k != c.names.notices ==> Written(t, k) == Written(s, k))
      && forall r :: r in rows ==> Taken(t, NoticeWrite(c, r))
  {
    hide EffectId, Taken, Extends;
    if rows == [] {
      ExtendsReflexive(s);
    } else {
      var front, last := rows[..|rows| - 1], rows[|rows| - 1];
      Phase2Frame(c, s, front);
      var mid := Phase2(c, s, front);
      DeliverOne(c, mid, last);
      var t := CreateAll(mid, [NoticeWrite(c, last)]);
      ExtendsTransitive(s, mid, t);
      forall r | r in rows ensures Taken(t, NoticeWrite(c, r)) {
        if r != last {
          assert r in front;
          TakenStays(mid, t, NoticeWrite(c, r));
        }
      }
    }
  }

  /** The row's notice is stored under the row's id: its grant, its counterparty, its instant and its text. */
  ghost predicate Carried(c: Config, s: Store, row: OutboxRow) {
    var notice := Notice(row.grantId, row.counterpartyId, row.revokedAt, row.noticeText);
    Entry(EffectId(c.h, c.operationId, row.grantId, NOTICE), NoticeDoc(notice)) in Written(s, c.names.notices)
  }

  /** Every notice there after delivery was there before or is some row's. */
  ghost predicate NoticeOfRows(c: Config, rows: seq<OutboxRow>, e: Entry) {
    exists r :: r in rows && e == Entry(NoticeWrite(c, r).id, NoticeWrite(c, r).doc)
  }

  lemma {:induction false} Phase2Adds(c: Config, s: Store, rows: seq<OutboxRow>)
    ensures forall e :: e in Written(Phase2(c, s, rows), c.names.notices) ==>
      e in Written(s, c.names.notices) || NoticeOfRows(c, rows, e)
  {
    hide EffectId, Written, CreateAll;
    if rows != [] {
      var front, last := rows[..|rows| - 1], rows[|rows| - 1];
      Phase2Adds(c, s, front);
      DeliverOne(c, Phase2(c, s, front), last);
      forall e | NoticeOfRows(c, front, e) ensures NoticeOfRows(c, rows, e) {
        var r :| r in front && e == Entry(NoticeWrite(c, r).id, NoticeWrite(c, r).doc);
        assert r in rows;
      }
      assert NoticeOfRows(c, rows, Entry(NoticeWrite(c, last).id, NoticeWrite(c, last).doc));
    }
  }

  /** A row whose notice id was free is delivered with its own words. */
  lemma DeliveredAsOwed(c: Config, s: Store, rows: seq<OutboxRow>, row: OutboxRow)
    requires Injective(c.h) && row in rows && !Taken(s, NoticeWrite(c, row)) && OneRowPerGrant(rows)
    ensures Carried(c, Phase2(c, s, rows), row)
  {
    hide EffectId, Phase2, Written, Injective;
    Phase2Frame(c, s, rows);
    Phase2Adds(c, s, rows);
    var b := Written(Phase2(c, s, rows), c.names.notices);
    var i :| 0 <= i < |b| && b[i].id == NoticeWrite(c, row).id;
    assert b[i] in b;
    if b[i] in Written(s, c.names.notices) {
      InHasId(Written(s, c.names.notices), b[i]);
    }
    var r :| r in rows && b[i] == Entry(NoticeWrite(c, r).id, NoticeWrite(c, r).doc);
    EffectIdsAgree(c.h, c.operationId, r.grantId, NOTICE, c.operationId, row.grantId, NOTICE);
    OneOperationSeparatesGrants(c.operationId, r.grantId, row.grantId);
  }

  lemma TakenStays(s: Store, t: Store, w: Write)
    requires Extends(s, t) && Taken(s, w)
    ensures Taken(t, w)
  {
    var b := Written(s, w.collection);
    var i :| 0 <= i < |b| && b[i].id == w.id;
    assert Written(t, w.collection)[i] == b[i];
  }

  lemma DeliverOne(c: Config, s: Store, row: OutboxRow)
    ensures var w := NoticeWrite(c, row);
      var t := CreateAll(s, [w]);
      && t.served == s.served && Extends(s, t) && Taken(t, w)
      && (forall k :: k != w.collection ==> Written(t, k) == Written(s, k))
      && Written(t, w.collection)
        == if Taken(s, w) then Written(s, w.collection) else Written(s, w.collection) + [Entry(w.id, w.doc)]
  {
    hide EffectId;
    var w := NoticeWrite(c, row);
    OneCreate(s, w);
  }

  /** A single create: refused when the id is taken, otherwise one entry at the end of one collection. */
  lemma OneCreate(s: Store, w: Write)
    ensures var t := CreateAll(s, [w]);
      && t.served == s.served && Extends(s, t) && Taken(t, w) && (Taken(s, w) ==> t == s)
      && (forall k :: k != w.collection ==> Written(t, k) == Written(s, k))
      && Written(t, w.collection)
        == if Taken(s, w) then Written(s, w.collection) else Written(s, w.collection) + [Entry(w.id, w.doc)]
  {
    CreateAllCases(s, [w]);
    assert [w][0] in [w];
    if !Taken(s, w) {
      assert AllFree(s, [w]);
      BatchAppends(s, [w]);
      assert [w][..0] == [];
      forall k ensures Tail([w], k) == if k == w.collection then [Entry(w.id, w.doc)] else [] {
        assert Tail([w][..0], k) == [];
      }
      assert AssignAll(s, [w]) == Assign(AssignAll(s, [w][..0]), w);
      var b := Written(s, w.collection);
      HasIdConcat(b, [Entry(w.id, w.doc)], w.id);
      assert [Entry(w.id, w.doc)][0].id == w.id;
    }
  }

  /** `e` is a grant event of this deployment. */
  predicate Logged(n: Names, s: Store, e: GrantEvent) {
    GrantDoc(e) in Served(s, n.grants) + DocsOf(Written(s, n.grants))
  }

  lemma LoggedPersists(n: Names, s: Store, t: Store, e: GrantEvent)
    requires Extends(s, t) && Logged(n, s, e)
    ensures Logged(n, t, e)
  {
    var b, x := Written(s, n.grants), Written(t, n.grants);
    assert b <= x && x == b + x[|b|..];
    BucketConcat(b, x[|b|..]);
  }

  /** What a decision about one counterparty's rights in one work is folded from. */
  function View(n: Names, s: Store, workId: string, counterpartyId: string): seq<GrantEvent>
    requires Typed(s, n)
  {
    EventsOf(Query(s, n.grants, map["work_id" := workId, "counterparty_id" := counterpartyId]))
  }

  lemma ViewMembers(n: Names, s: Store, workId: string, counterpartyId: string, e: GrantEvent)
    requires Typed(s, n)
    ensures e in View(n, s, workId, counterpartyId) <==>
      Logged(n, s, e) && e.workId == workId && e.counterpartyId == counterpartyId
  {
    var filters := map["work_id" := workId, "counterparty_id" := counterpartyId];
    EventsOfMembers(Query(s, n.grants, filters), e);
    assert Satisfies(GrantDoc(e), filters) <==> e.workId == workId && e.counterpartyId == counterpartyId by {
      assert "work_id" in filters && "counterparty_id" in filters;
    }
  }

  lemma SnapshotMembers(c: Config, s: Store, e: GrantEvent)
    requires Typed(s, c.names)
    ensures e in Snapshot(c, s) <==> Logged(c.names, s, e) && e.workId == c.workId
  {
    var filters := map["work_id" := c.workId];
    EventsOfMembers(Query(s, c.names.grants, filters), e);
    assert Satisfies(GrantDoc(e), filters) <==> e.workId == c.workId by {
      assert "work_id" in filters;
    }
  }

  lemma EventsOfMembers(docs: seq<Doc>, e: GrantEvent)
    requires forall d :: d in docs ==> d.GrantDoc?
    ensures e in EventsOf(docs) <==> GrantDoc(e) in docs
  {
    var events := EventsOf(docs);
    if GrantDoc(e) in docs {
      var i :| 0 <= i < |docs| && docs[i] == GrantDoc(e);
      assert events[i] == e;
    }
    if e in events {
      var i :| 0 <= i < |events| && events[i] == e;
      assert docs[i] in docs && docs[i] == GrantDoc(e);
    }
  }

  /** The instants, grants and texts of one completed call: the contract of the cascade method. */
  ghost predicate Ran(c: Config, before: Store, after: Store, at: Instant, end: Instant, drafts: map<string, Draft>,
                      draft: string -> string, r: CascadeResult) {
    && Completed(c, before, after, at, drafts, r)
    && Drafted(c, before, at, drafts, draft)
    && DraftsAfter(drafts, at, end) && at <= end
  }

  ghost predicate Sound(c: Config) {
    && Injective(c.h) && PartialOrder(c.order)
    && c.names.grants != c.names.outbox && c.names.grants != c.names.notices && c.names.outbox != c.names.notices
  }

  /** The events the call added to the log. */
  ghost function Added(c: Config, before: Store, at: Instant, drafts: map<string, Draft>): seq<GrantEvent>
    requires Typed(before, c.names)
  {
    var snapshot := Snapshot(c, before);
    FiredEvents(c, before, snapshot, at, drafts, Text.Sorted(GrantIds(snapshot)))
  }

  ghost function AddedRows(c: Config, before: Store, at: Instant, drafts: map<string, Draft>): seq<OutboxRow>
    requires Typed(before, c.names)
  {
    var snapshot := Snapshot(c, before);
    FiredRows(c, before, snapshot, at, drafts, Text.Sorted(GrantIds(snapshot)))
  }

  /**
   * The whole call: the grants and outbox collections grow by the fired pairs, the notices by delivery, nothing else
   * moves.
   */
  lemma ExactEffect(c: Config, before: Store, after: Store, at: Instant, drafts: map<string, Draft>, r: CascadeResult)
    requires Sound(c) && Completed(c, before, after, at, drafts, r)
    ensures Written(after, c.names.grants) == Written(before, c.names.grants)
      + EventEntries(Added(c, before, at, drafts))
    ensures Written(after, c.names.outbox) == Written(before, c.names.outbox)
      + RowEntries(AddedRows(c, before, at, drafts))
    ensures after.served == before.served
    ensures forall k :: k !in {c.names.grants, c.names.outbox, c.names.notices} ==>
      Written(after, k) == Written(before, k)
    ensures Typed(after, c.names)
  {
    hide Injective, PartialOrder, FiredEvents, FiredRows, Phase1, Phase2, Text.Ascending, Derivation, NewlyCommitted,
         Affected, TerminatedUnion, Extends, Taken, NoticeWrite, Selected, Query;
    var snapshot := Snapshot(c, before);
    var gids := Text.Sorted(GrantIds(snapshot));
    var mid := Phase1(c, before, snapshot, at, drafts, gids);
    Phase1Shape(c, before, snapshot, at, drafts, gids);
    Phase2Frame(c, mid, SortBy(RowLeq, Owed(c, mid)));
  }

  lemma LoggedAfter(n: Names, before: Store, after: Store, events: seq<GrantEvent>, e: GrantEvent)
    requires after.served == before.served
    requires Written(after, n.grants) == Written(before, n.grants) + EventEntries(events)
    ensures Logged(n, after, e) <==> Logged(n, before, e) || e in events
  {
    var b, x := Written(before, n.grants), EventEntries(events);
    BucketConcat(b, x);
    assert DocsOf(b + x) == DocsOf(b) + DocsOf(x);
    if e in events {
      var i :| 0 <= i < |events| && events[i] == e;
      assert DocsOf(x)[i] == GrantDoc(e);
    }
    if GrantDoc(e) in DocsOf(x) {
      var i :| 0 <= i < |x| && DocsOf(x)[i] == GrantDoc(e);
      assert events[i] == e;
    }
  }

  /** What the call may add: revoked events of this work, dated within the call, for selected grants. */
  lemma AddedEvents(c: Config, before: Store, after: Store, at: Instant, end: Instant, drafts: map<string, Draft>,
                    draft: string -> string, r: CascadeResult)
    requires Ran(c, before, after, at, end, drafts, draft, r)
    ensures forall e :: e in Added(c, before, at, drafts) ==>
      && e.kind == Revoked && at < e.issuedAt <= end && e.workId == c.workId
      && Fires(c, before, Snapshot(c, before), at, e.grantId)
      && Resolved(e.grantId, None, Snapshot(c, before)).counterpartyId == Some(e.counterpartyId)
      && Resolved(e.grantId, None, Snapshot(c, before)).activeScope == Some(e.scope)
    ensures forall g :: Fires(c, before, Snapshot(c, before), at, g) ==>
      exists e :: e in Added(c, before, at, drafts) && e.grantId == g
  {
    assert Typed(before, c.names) && Drafted(c, before, at, drafts, draft) && DraftsAfter(drafts, at, end);
    hide Resolved, Clear, FiredEvents, Completed, EffectId, Text.Ascending, Query, Ran, Typed, WellFormed, Contains,
         ScopeWindowHasClosed, GrantIds, Snapshot;
    var snapshot := Snapshot(c, before);
    var gids := Text.Sorted(GrantIds(snapshot));
    FiredMembers(c, before, snapshot, at, drafts, gids);
    forall g | Fires(c, before, snapshot, at, g)
      ensures exists e :: e in Added(c, before, at, drafts) && e.grantId == g
    {
      ActiveIsLogged(g, snapshot);
      FoldNamesGrant(g, None, snapshot);
      var e := RevokedEventFor(c, Resolved(g, None, snapshot), DraftFor(drafts, g));
      assert e in Added(c, before, at, drafts) && e.grantId == g;
    }
    forall e | e in Added(c, before, at, drafts)
      ensures e.kind == Revoked && at < e.issuedAt <= end && e.workId == c.workId
    {
      assert e.grantId in gids && Selected(c, Resolved(e.grantId, None, snapshot), at);
      assert e.grantId in drafts;
    }
  }

  /** A grant that folds to active has an event, so it is among the ids the cascade visits. */
  lemma ActiveIsLogged(g: string, log: seq<GrantEvent>)
    requires Resolved(g, None, log).status == Active
    ensures g in GrantIds(log)
  {
    var h := History(g, None, log);
    if h != [] {
      assert h[0] in h;
    }
  }

  // ------------------------------------------------------------------
  // Finality
  // ------------------------------------------------------------------

  /** The premises of the finality theorem about a log. */
  ghost predicate Premises(c: Config, s: Store) {
    && (forall e, f :: Logged(c.names, s, e) && Logged(c.names, s, f) && e.eventId == f.eventId ==> e == f)
    && (forall e, f :: Logged(c.names, s, e) && Logged(c.names, s, f) && e.grantId == f.grantId ==>
          e.workId == f.workId && e.counterpartyId == f.counterpartyId)
  }

  /** Nothing already logged about the work is dated after the instant the cascade took. */
  ghost predicate NothingFromTheFuture(c: Config, s: Store, at: Instant) {
    forall e :: Logged(c.names, s, e) && e.workId == c.workId ==> e.issuedAt <= at
  }

  /** `later` was reached from `after` without a new grant on the work: any other events, dated anyhow. */
  ghost predicate NoNewGrant(c: Config, after: Store, later: Store) {
    && Typed(later, c.names)
    && (forall e :: Logged(c.names, after, e) ==> Logged(c.names, later, e))
    && forall e :: Logged(c.names, later, e) && !Logged(c.names, after, e) && e.workId == c.workId ==> e.kind != Granted
  }

  /** No active grant of the view can admit a request for the revoked use, or for one above it. */
  ghost predicate Withdrawn(c: Config, o: Orders, view: seq<GrantEvent>, asOf: Option<Instant>, t: Instant) {
    forall req: Scope :: ValidScope(o, req) && Contains(o.use, req.useType, c.useType) ==>
      !Permitted(o, ActiveGrants(view, asOf), req, t)
  }

  /** The pure core: joining the cascade's closed-window rule to the currency test of permits(). */
  lemma NoGrantSurvives(c: Config, o: Orders, snapshot: seq<GrantEvent>, added: seq<GrantEvent>, view: seq<GrantEvent>,
                        at: Instant, end: Instant, asOf: Option<Instant>, t: Instant, g: GrantEvent, req: Scope)
    requires ValidOrders(o) && c.order == o.use && UniqueIds(snapshot) && UniqueIds(view)
    requires forall e :: e in snapshot ==> e.issuedAt <= at
    requires forall e :: e in added ==> e.kind == Revoked && at < e.issuedAt <= end
    requires forall e, f :: e in view && f in snapshot + added && f.grantId == e.grantId ==> f in view
    requires forall e :: e in view && e.kind == Granted ==> e in snapshot
    requires at <= t && at <= end && (asOf.Some? ==> end <= asOf.value)
    requires ValidScope(o, req) && Contains(o.use, req.useType, c.useType)
    requires g in ActiveGrants(view, asOf)
    requires Selected(c, Resolved(g.grantId, None, snapshot), at) ==> exists f :: f in added && f.grantId == g.grantId
    ensures !Admits(o, g.scope, req, t)
  {
    hide PartialOrder, Resolved, ActiveGrants, Inside, UniqueIds;
    ActiveGrantsProjectTheFold(view, asOf);
    var gid := g.grantId;
    assert IsLast(view, gid, asOf, g) && g.kind == Granted;
    if Selected(c, Resolved(gid, None, snapshot), at) {
      var f :| f in added && f.grantId == gid;
      NotLastBehind(view, asOf, f, g);
    } else {
      assert IsLast(snapshot, gid, None, g);
      UnselectedCannotAdmit(c, o, snapshot, at, t, g, req);
    }
  }

  /** An active grant the cascade did not select can never admit a request at or above the revoked use. */
  lemma UnselectedCannotAdmit(c: Config, o: Orders, snapshot: seq<GrantEvent>, at: Instant, t: Instant, g: GrantEvent,
                              req: Scope)
    requires ValidOrders(o) && c.order == o.use && UniqueIds(snapshot) && at <= t
    requires IsLast(snapshot, g.grantId, None, g) && g.kind == Granted
    requires !Selected(c, Resolved(g.grantId, None, snapshot), at)
    requires ValidScope(o, req) && Contains(o.use, req.useType, c.useType)
    ensures !Admits(o, g.scope, req, t)
  {
    hide PartialOrder, Resolved, Inside, UniqueIds;
    LastEventWins(g.grantId, None, snapshot, g);
    if Admits(o, g.scope, req, t) {
      InsideIffEveryDimension(o, req, g.scope);
      UsesCompose(o.use, g.scope.useType, req.useType, c.useType);
    }
  }

  lemma NotLastBehind(view: seq<GrantEvent>, asOf: Option<Instant>, f: GrantEvent, g: GrantEvent)
    requires f in view && Matches(g.grantId, asOf, f) && g.issuedAt < f.issuedAt
    ensures !IsLast(view, g.grantId, asOf, g)
  {
    assert !KeyLeq(f, g);
  }

  lemma UsesCompose(u: Order, held: string, asked: string, revoked: string)
    requires PartialOrder(u) && Contains(u, held, asked) && Contains(u, asked, revoked)
    ensures Contains(u, held, revoked)
  {
  }

  /**
   * Finality. If every selected grant's pair was free, then in every later state reached without a new grant on the
   * work, for every counterparty, every as-of instant from the end of the call on (or none) and every instant of
   * evaluation from the cascade on, no request for the revoked use or a use above it is permitted.
   */
  lemma Finality(c: Config, o: Orders, before: Store, after: Store, later: Store, at: Instant, end: Instant,
                 drafts: map<string, Draft>, draft: string -> string, r: CascadeResult, counterpartyId: string,
                 asOf: Option<Instant>, t: Instant)
    requires Sound(c) && ValidOrders(o) && c.order == o.use && Ran(c, before, after, at, end, drafts, draft, r)
    requires NothingFromTheFuture(c, before, at) && NoNewGrant(c, after, later) && Premises(c, later)
    requires forall gid :: Selected(c, Resolved(gid, None, Snapshot(c, before)), at) ==> Clear(c, before, gid)
    requires at <= t && (asOf.Some? ==> end <= asOf.value)
    ensures Withdrawn(c, o, View(c.names, later, c.workId, counterpartyId), asOf, t)
  {
    assert Typed(before, c.names);
    hide Injective, PartialOrder, Completed, Resolved, Selected, Clear, Logged, Added, Snapshot, ActiveGrants, View,
         Typed, DraftsAfter, Drafted, Text.Ascending, Query;
    var snapshot, added, view := Snapshot(c, before), Added(c, before, at, drafts),
        View(c.names, later, c.workId, counterpartyId);
    assert Completed(c, before, after, at, drafts, r);
    ExactEffect(c, before, after, at, drafts, r);
    AddedEvents(c, before, after, at, end, drafts, draft, r);
    LogsRelate(c, before, after, later, added, counterpartyId);
    forall req: Scope | ValidScope(o, req) && Contains(o.use, req.useType, c.useType)
      ensures !Permitted(o, ActiveGrants(view, asOf), req, t)
    {
      forall g | g in ActiveGrants(view, asOf) ensures !Admits(o, g.scope, req, t) {
        assert Selected(c, Resolved(g.grantId, None, snapshot), at) ==> Fires(c, before, snapshot, at, g.grantId);
        NoGrantSurvives(c, o, snapshot, added, view, at, end, asOf, t, g, req);
      }
    }
  }

  /** The snapshot, the added events and a later view, related member by member. */
  lemma LogsRelate(c: Config, before: Store, after: Store, later: Store, added: seq<GrantEvent>, counterpartyId: string)
    requires Typed(before, c.names) && Typed(after, c.names) && NoNewGrant(c, after, later) && Premises(c, later)
    requires after.served == before.served
    requires Written(after, c.names.grants) == Written(before, c.names.grants) + EventEntries(added)
    requires forall e :: e in added ==> e.kind == Revoked && e.workId == c.workId
    ensures var snapshot, view := Snapshot(c, before), View(c.names, later, c.workId, counterpartyId);
      && UniqueIds(snapshot) && UniqueIds(view)
      && (forall e :: e in snapshot ==> Logged(c.names, before, e) && e.workId == c.workId)
      && (forall e, f :: e in view && f in snapshot + added && f.grantId == e.grantId ==> f in view)
      && (forall e :: e in view && e.kind == Granted ==> e in snapshot)
  {
    hide Logged, Typed, Snapshot, View, Written, EventEntries;
    var snapshot, view := Snapshot(c, before), View(c.names, later, c.workId, counterpartyId);
    forall e ensures e in snapshot <==> Logged(c.names, before, e) && e.workId == c.workId {
      SnapshotMembers(c, before, e);
    }
    forall e
      ensures e in view <==> Logged(c.names, later, e) && e.workId == c.workId && e.counterpartyId == counterpartyId
    {
      ViewMembers(c.names, later, c.workId, counterpartyId, e);
    }
    forall e ensures Logged(c.names, after, e) <==> Logged(c.names, before, e) || e in added {
      LoggedAfter(c.names, before, after, added, e);
    }
  }

  // ------------------------------------------------------------------
  // Finality holds exactly when the selected pairs were free
  // ------------------------------------------------------------------

  ghost predicate ValidLog(c: Config, o: Orders, s: Store) {
    forall e :: Logged(c.names, s, e) ==> ValidScope(o, e.scope)
  }

  /** Every grant the call will select still has its two ids free: decidable before the call. */
  ghost predicate AllClear(c: Config, s: Store, at: Instant)
    requires Typed(s, c.names)
  {
    forall gid :: Selected(c, Resolved(gid, None, Snapshot(c, s)), at) ==> Clear(c, s, gid)
  }

  /** From the cascade's instant on, nobody may use what was revoked. */
  ghost predicate WithdrawnForAll(c: Config, o: Orders, s: Store, at: Instant)
    requires Typed(s, c.names)
  {
    forall counterpartyId, t :: at <= t ==> Withdrawn(c, o, View(c.names, s, c.workId, counterpartyId), None, t)
  }

  /** A selected grant whose ids were taken keeps permitting its own scope at some instant from the cascade on. */
  lemma SkippedGrantStillPermits(c: Config, o: Orders, before: Store, after: Store, at: Instant, end: Instant,
                                 drafts: map<string, Draft>, draft: string -> string, r: CascadeResult, gid: string)
    requires Sound(c) && ValidOrders(o) && c.order == o.use && Ran(c, before, after, at, end, drafts, draft, r)
    requires Premises(c, after) && ValidLog(c, o, before) && Typed(after, c.names)
    requires Selected(c, Resolved(gid, None, Snapshot(c, before)), at) && !Clear(c, before, gid)
    ensures !WithdrawnForAll(c, o, after, at)
  {
    assert Typed(before, c.names) && Completed(c, before, after, at, drafts, r)
      && !Fires(c, before, Snapshot(c, before), at, gid);
    hide *;
    var snapshot, added := Snapshot(c, before), Added(c, before, at, drafts);
    ExactEffect(c, before, after, at, drafts, r);
    AddedEvents(c, before, after, at, end, drafts, draft, r);
    UniqueSnapshot(c, before, after, added);
    var g := LastOfSelected(c, snapshot, at, gid);
    StillActive(c, before, after, added, g);
    SnapshotMembers(c, before, g);
    OwnScopeAdmitted(c, o, before, after, at, g);
  }

  lemma LastOfSelected(c: Config, snapshot: seq<GrantEvent>, at: Instant, gid: string) returns (g: GrantEvent)
    requires UniqueIds(snapshot) && Selected(c, Resolved(gid, None, snapshot), at)
    ensures g.grantId == gid && g in snapshot && IsLast(snapshot, gid, None, g) && g.kind == Granted
    ensures Contains(c.order, g.scope.useType, c.useType) && !ScopeWindowHasClosed(g.scope, at)
  {
    hide Resolved, UniqueIds, Contains, ScopeWindowHasClosed;
    ActiveIff(gid, None, snapshot);
    g :| IsLast(snapshot, gid, None, g) && g.kind == Granted;
    LastEventWins(gid, None, snapshot, g);
  }

  lemma OwnScopeAdmitted(c: Config, o: Orders, before: Store, after: Store, at: Instant, g: GrantEvent)
    requires Typed(after, c.names) && ValidLog(c, o, before) && Logged(c.names, before, g)
    requires c.order == o.use && Contains(o.use, g.scope.useType, c.useType) && !ScopeWindowHasClosed(g.scope, at)
    requires g in ActiveGrants(View(c.names, after, c.workId, g.counterpartyId), None)
    ensures !WithdrawnForAll(c, o, after, at)
  {
    hide Logged, View, ActiveGrants, Typed;
    var view := View(c.names, after, c.workId, g.counterpartyId);
    var t := if at < g.scope.validFrom then g.scope.validFrom else at;
    assert ValidScope(o, g.scope) && IsScopeCurrent(g.scope, t);
    assert Inside(o, g.scope, g.scope);
    assert Permitted(o, ActiveGrants(view, None), g.scope, t);
    assert !Withdrawn(c, o, view, None, t);
  }

  lemma UniqueSnapshot(c: Config, before: Store, after: Store, added: seq<GrantEvent>)
    requires Typed(before, c.names) && Premises(c, after) && after.served == before.served
    requires Written(after, c.names.grants) == Written(before, c.names.grants) + EventEntries(added)
    ensures UniqueIds(Snapshot(c, before))
  {
    hide Logged, Snapshot, Typed;
    forall e | e in Snapshot(c, before) ensures Logged(c.names, after, e) {
      SnapshotMembers(c, before, e);
      LoggedAfter(c.names, before, after, added, e);
    }
  }

  /** The greatest event of a grant that nothing was added to is still what the readers of that grant fold to. */
  lemma StillActive(c: Config, before: Store, after: Store, added: seq<GrantEvent>, g: GrantEvent)
    requires Typed(before, c.names) && Typed(after, c.names) && Premises(c, after) && after.served == before.served
    requires Written(after, c.names.grants) == Written(before, c.names.grants) + EventEntries(added)
    requires forall e :: e in added ==> e.grantId != g.grantId
    requires IsLast(Snapshot(c, before), g.grantId, None, g) && g.kind == Granted
    ensures g in ActiveGrants(View(c.names, after, c.workId, g.counterpartyId), None)
  {
    hide Logged, Snapshot, Typed, View, ActiveGrants, KeyLeq;
    var view := View(c.names, after, c.workId, g.counterpartyId);
    forall e
      ensures e in Snapshot(c, before) <==> Logged(c.names, before, e) && e.workId == c.workId
      ensures Logged(c.names, after, e) <==> Logged(c.names, before, e) || e in added
      ensures e in view <==> Logged(c.names, after, e) && e.workId == c.workId && e.counterpartyId == g.counterpartyId
    {
      SnapshotMembers(c, before, e);
      ViewMembers(c.names, after, c.workId, g.counterpartyId, e);
      LoggedAfter(c.names, before, after, added, e);
    }
    assert IsLast(view, g.grantId, None, g);
    ActiveGrantsProjectTheFold(view, None);
  }

  /**
   * In every later store reached without a new grant on the work, from the cascade's instant on, nobody may use what
   * was revoked.
   */
  ghost predicate WithdrawnForGood(c: Config, o: Orders, after: Store, at: Instant) {
    forall later :: NoNewGrant(c, after, later) && Premises(c, later) ==> WithdrawnForAll(c, o, later, at)
  }

  /**
   * A completed cascade withdraws the use from everyone if and only if no selected grant's id was taken; and it does so
   * for good, in every later store without a new grant, under the same condition.
   */
  lemma FinalExactlyWhenClear(c: Config, o: Orders, before: Store, after: Store, at: Instant, end: Instant,
                              drafts: map<string, Draft>, draft: string -> string, r: CascadeResult)
    requires Sound(c) && ValidOrders(o) && c.order == o.use && Ran(c, before, after, at, end, drafts, draft, r)
    requires NothingFromTheFuture(c, before, at) && Premises(c, after) && ValidLog(c, o, before)
    requires Typed(after, c.names)
    ensures WithdrawnForAll(c, o, after, at) <==> AllClear(c, before, at)
    ensures WithdrawnForGood(c, o, after, at) <==> AllClear(c, before, at)
  {
    assert Typed(before, c.names) && NoNewGrant(c, after, after);
    hide Injective, PartialOrder, Resolved, Selected, Clear, Logged, Snapshot, ActiveGrants, View, Typed, Completed,
         Drafted, DraftsAfter, Withdrawn, Premises, Sound, NothingFromTheFuture, Ran, ValidOrders;
    if AllClear(c, before, at) {
      forall later, counterpartyId, t | NoNewGrant(c, after, later) && Premises(c, later) && at <= t
        ensures Withdrawn(c, o, View(c.names, later, c.workId, counterpartyId), None, t)
      {
        Finality(c, o, before, after, later, at, end, drafts, draft, r, counterpartyId, None, t);
      }
    } else {
      var gid :| Selected(c, Resolved(gid, None, Snapshot(c, before)), at) && !Clear(c, before, gid);
      SkippedGrantStillPermits(c, o, before, after, at, end, drafts, draft, r, gid);
    }
  }

  /**
   * What makes a retry skip: in every state grown from a call that fired a grant, the same operation finds its ids
   * taken.
   */
  lemma RetryCollides(c: Config, before: Store, after: Store, later: Store, at: Instant, end: Instant,
                      drafts: map<string, Draft>, draft: string -> string, r: CascadeResult, gid: string)
    requires Sound(c) && Ran(c, before, after, at, end, drafts, draft, r) && Extends(after, later)
    requires Fires(c, before, Snapshot(c, before), at, gid)
    ensures !Clear(c, later, gid)
  {
    assert Typed(before, c.names) && Completed(c, before, after, at, drafts, r);
    hide *;
    ExactEffect(c, before, after, at, drafts, r);
    var e := FiredIsAdded(c, before, at, drafts, gid);
    AddedIsTaken(c, before, after, later, Added(c, before, at, drafts), gid, e);
  }

  lemma FiredIsAdded(c: Config, before: Store, at: Instant, drafts: map<string, Draft>, gid: string)
    returns (e: GrantEvent)
    requires Typed(before, c.names) && Fires(c, before, Snapshot(c, before), at, gid)
    ensures e in Added(c, before, at, drafts) && e.eventId == EffectId(c.h, c.operationId, gid, REVOKED_EVENT)
  {
    hide Resolved, Clear, EffectId, Snapshot, FiredEvents, GrantIds, Text.Ascending, Contains, ScopeWindowHasClosed;
    var snapshot := Snapshot(c, before);
    SelectedIsLogged(c, gid, snapshot, at);
    FiredMembers(c, before, snapshot, at, drafts, Text.Sorted(GrantIds(snapshot)));
    FoldNamesGrant(gid, None, snapshot);
    e := RevokedEventFor(c, Resolved(gid, None, snapshot), DraftFor(drafts, gid));
  }

  lemma AddedIsTaken(c: Config, before: Store, after: Store, later: Store, added: seq<GrantEvent>, gid: string,
                     e: GrantEvent)
    requires Written(after, c.names.grants) == Written(before, c.names.grants) + EventEntries(added)
    requires Extends(after, later) && e in added && e.eventId == EffectId(c.h, c.operationId, gid, REVOKED_EVENT)
    ensures !Clear(c, later, gid)
  {
    hide EffectId, Written;
    var i :| 0 <= i < |added| && added[i] == e;
    var b := Written(before, c.names.grants);
    assert Written(after, c.names.grants)[|b| + i] == EventEntries(added)[i];
    assert Written(later, c.names.grants)[|b| + i] == Written(after, c.names.grants)[|b| + i];
  }

  lemma SelectedIsLogged(c: Config, gid: string, snapshot: seq<GrantEvent>, at: Instant)
    requires Selected(c, Resolved(gid, None, snapshot), at)
    ensures gid in GrantIds(snapshot)
  {
    ActiveIsLogged(gid, snapshot);
  }

  // ------------------------------------------------------------------
  // Frame: what a cascade leaves alone
  // ------------------------------------------------------------------

  lemma {:induction false} SelectConcat(a: seq<Doc>, b: seq<Doc>, filters: map<string, string>)
    ensures Select(a + b, filters) == Select(a, filters) + Select(b, filters)
  {
    if b == [] {
      assert a + b == a;
    } else {
      var last := b[|b| - 1];
      assert (a + b)[..|a + b| - 1] == a + b[..|b| - 1];
      SelectConcat(a, b[..|b| - 1], filters);
    }
  }

  lemma EventsConcat(a: seq<Doc>, b: seq<Doc>)
    requires forall d :: d in a + b ==> d.GrantDoc?
    ensures (forall d :: d in a ==> d.GrantDoc?) && (forall d :: d in b ==> d.GrantDoc?)
    ensures EventsOf(a + b) == EventsOf(a) + EventsOf(b)
  {
    forall d | d in a || d in b ensures d.GrantDoc? { assert d in a + b; }
  }

  /** Every reader's log only ever gets longer, and only by events the call added. */
  lemma ViewGrows(n: Names, before: Store, after: Store, added: seq<GrantEvent>, workId: string, counterpartyId: string)
    returns (more: seq<GrantEvent>)
    requires Typed(before, n) && Typed(after, n) && after.served == before.served
    requires Written(after, n.grants) == Written(before, n.grants) + EventEntries(added)
    ensures View(n, after, workId, counterpartyId) == View(n, before, workId, counterpartyId) + more
    ensures forall e :: e in more ==> e in added
  {
    hide Satisfies, Typed, Select, Written, Served;
    var filters := map["work_id" := workId, "counterparty_id" := counterpartyId];
    var tail := DocsOf(EventEntries(added));
    QueryGrows(before, after, n.grants, EventEntries(added), filters);
    AllTyped(n, before, filters);
    AllTyped(n, after, filters);
    EventsConcat(Query(before, n.grants, filters), Select(tail, filters));
    more := EventsOf(Select(tail, filters));
    forall e | e in more ensures e in added {
      EventsOfMembers(Select(tail, filters), e);
      var i :| 0 <= i < |tail| && tail[i] == GrantDoc(e);
      assert added[i] == e;
    }
  }

  lemma QueryGrows(before: Store, after: Store, collection: string, more: Bucket, filters: map<string, string>)
    requires after.served == before.served && Written(after, collection) == Written(before, collection) + more
    ensures Query(after, collection, filters) == Query(before, collection, filters) + Select(DocsOf(more), filters)
  {
    hide Satisfies, Select;
    var b := Written(before, collection);
    BucketConcat(b, more);
    assert Served(after, collection) + DocsOf(b + more) == Served(before, collection) + DocsOf(b) + DocsOf(more);
    SelectConcat(Served(before, collection) + DocsOf(b), DocsOf(more), filters);
  }

  lemma AllTyped(n: Names, s: Store, filters: map<string, string>)
    requires Typed(s, n)
    ensures forall d :: d in Query(s, n.grants, filters) ==> d.GrantDoc?
  {
  }

  /**
   * The unrewritten past and the untouched present: for every work and counterparty, a grant the call did not fire
   * resolves to the identical state, history included, and every grant does at every instant up to the cascade's.
   */
  lemma Frame(c: Config, before: Store, after: Store, at: Instant, end: Instant, drafts: map<string, Draft>,
              draft: string -> string, r: CascadeResult, workId: string, counterpartyId: string, gid: string,
              asOf: Option<Instant>)
    requires Sound(c) && Ran(c, before, after, at, end, drafts, draft, r)
    requires (asOf.Some? && asOf.value <= at) || !Fires(c, before, Snapshot(c, before), at, gid)
    ensures Typed(before, c.names) && Typed(after, c.names)
    ensures Resolved(gid, asOf, View(c.names, after, workId, counterpartyId))
      == Resolved(gid, asOf, View(c.names, before, workId, counterpartyId))
  {
    assert Typed(before, c.names) && Completed(c, before, after, at, drafts, r);
    hide Sound, Ran, Completed, Typed, Fires, View, Added, Resolved, Snapshot;
    ExactEffect(c, before, after, at, drafts, r);
    AddedEvents(c, before, after, at, end, drafts, draft, r);
    var more := ViewGrows(c.names, before, after, Added(c, before, at, drafts), workId, counterpartyId);
    IrrelevantEventsAreIgnored(gid, asOf, View(c.names, before, workId, counterpartyId), more);
  }

  /** Behind a later revocation no granting is the last event of the grant. */
  lemma EndedBy(c: Config, before: Store, after: Store, at: Instant, added: seq<GrantEvent>, f: GrantEvent,
                counterpartyId: string)
    requires Typed(before, c.names) && Typed(after, c.names) && NothingFromTheFuture(c, before, at)
    requires Premises(c, after)
    requires after.served == before.served
    requires Written(after, c.names.grants) == Written(before, c.names.grants) + EventEntries(added)
    requires forall e :: e in added ==> e.kind == Revoked && at < e.issuedAt && e.workId == c.workId
    requires f in added
    ensures forall g :: IsLast(View(c.names, after, c.workId, counterpartyId), f.grantId, None, g) ==> g.kind != Granted
  {
    hide Logged, Typed, View, Written, EventEntries;
    var view := View(c.names, after, c.workId, counterpartyId);
    forall e
      ensures Logged(c.names, after, e) <==> Logged(c.names, before, e) || e in added
      ensures e in view <==> Logged(c.names, after, e) && e.workId == c.workId && e.counterpartyId == counterpartyId
    {
      ViewMembers(c.names, after, c.workId, counterpartyId, e);
      LoggedAfter(c.names, before, after, added, e);
    }
    forall g | IsLast(view, f.grantId, None, g) && g.kind == Granted ensures false {
      assert Logged(c.names, after, g) && Logged(c.names, after, f) && Logged(c.names, before, g);
      NotLastBehind(view, None, f, g);
    }
  }

  /** The log as the readers of one work see it: its events, and those of one counterparty. */
  lemma ViewsOf(c: Config, s: Store, counterpartyId: string)
    requires Typed(s, c.names) && Premises(c, s)
    ensures UniqueIds(Snapshot(c, s)) && UniqueIds(View(c.names, s, c.workId, counterpartyId))
    ensures forall e :: e in View(c.names, s, c.workId, counterpartyId) <==>
      e in Snapshot(c, s) && e.counterpartyId == counterpartyId
    ensures forall e, f :: e in Snapshot(c, s) && f in Snapshot(c, s) && e.grantId == f.grantId ==>
      e.counterpartyId == f.counterpartyId
  {
    hide Logged, Typed, Snapshot, View;
    forall e
      ensures e in Snapshot(c, s) <==> Logged(c.names, s, e) && e.workId == c.workId
      ensures e in View(c.names, s, c.workId, counterpartyId) <==>
        Logged(c.names, s, e) && e.workId == c.workId && e.counterpartyId == counterpartyId
    {
      SnapshotMembers(c, s, e);
      ViewMembers(c.names, s, c.workId, counterpartyId, e);
    }
  }

  lemma LastForReader(c: Config, s: Store, counterpartyId: string, g: GrantEvent)
    requires Typed(s, c.names) && Premises(c, s)
    requires g in ActiveGrants(View(c.names, s, c.workId, counterpartyId), None)
    ensures IsLast(Snapshot(c, s), g.grantId, None, g) && g.kind == Granted
    ensures Resolved(g.grantId, None, Snapshot(c, s)).status == Active
  {
    ViewsOf(c, s, counterpartyId);
    hide Logged, Typed, Snapshot, View, ActiveGrants, Resolved, UniqueIds, Premises, KeyLeq;
    ActiveGrantsProjectTheFold(View(c.names, s, c.workId, counterpartyId), None);
    ActiveIff(g.grantId, None, Snapshot(c, s));
  }

  lemma PremisesBefore(c: Config, before: Store, after: Store, added: seq<GrantEvent>)
    requires Premises(c, after) && after.served == before.served
    requires Written(after, c.names.grants) == Written(before, c.names.grants) + EventEntries(added)
    ensures Premises(c, before)
  {
    hide Logged, Written, EventEntries;
    forall e ensures Logged(c.names, before, e) ==> Logged(c.names, after, e) {
      LoggedAfter(c.names, before, after, added, e);
    }
  }

  /** The grant was open to the revocation: wide enough, its window not closed, its two ids free. */
  predicate Exposed(c: Config, s: Store, at: Instant, g: GrantEvent) {
    Contains(c.order, g.scope.useType, c.useType) && !ScopeWindowHasClosed(g.scope, at) && Clear(c, s, g.grantId)
  }

  lemma ExposedMeansFires(c: Config, s: Store, at: Instant, g: GrantEvent)
    requires Typed(s, c.names) && UniqueIds(Snapshot(c, s)) && IsLast(Snapshot(c, s), g.grantId, None, g)
    requires g.kind == Granted
    ensures Fires(c, s, Snapshot(c, s), at, g.grantId) <==> Exposed(c, s, at, g)
  {
    hide Typed, Snapshot, UniqueIds, IsLast, Contains, ScopeWindowHasClosed, Clear, Resolved;
    LastEventWins(g.grantId, None, Snapshot(c, s), g);
  }

  /** Of the active grants a reader sees, the call ends exactly those that were exposed to it. */
  lemma EndsExactlyTheExposed(c: Config, before: Store, after: Store, at: Instant, end: Instant,
                              drafts: map<string, Draft>, draft: string -> string, r: CascadeResult,
                              counterpartyId: string, g: GrantEvent)
    requires Sound(c) && Ran(c, before, after, at, end, drafts, draft, r) && NothingFromTheFuture(c, before, at)
    requires Premises(c, after)
    requires Typed(before, c.names) && Typed(after, c.names)
    requires g in ActiveGrants(View(c.names, before, c.workId, counterpartyId), None)
    ensures g in ActiveGrants(View(c.names, after, c.workId, counterpartyId), None) <==> !Exposed(c, before, at, g)
  {
    assert Completed(c, before, after, at, drafts, r);
    hide *;
    var added := Added(c, before, at, drafts);
    ExactEffect(c, before, after, at, drafts, r);
    AddedEvents(c, before, after, at, end, drafts, draft, r);
    PremisesBefore(c, before, after, added);
    LastForReader(c, before, counterpartyId, g);
    ViewsOf(c, before, counterpartyId);
    ViewsOf(c, after, counterpartyId);
    ExposedMeansFires(c, before, at, g);
    ActiveGrantsHold(View(c.names, before, c.workId, counterpartyId), g);
    ActiveGrantsHold(View(c.names, after, c.workId, counterpartyId), g);
    if Exposed(c, before, at, g) {
      var f :| f in added && f.grantId == g.grantId;
      EndedBy(c, before, after, at, added, f, counterpartyId);
    } else {
      assert g.counterpartyId == counterpartyId;
      StillActive(c, before, after, added, g);
    }
  }

  lemma ActiveGrantsHold(log: seq<GrantEvent>, g: GrantEvent)
    requires UniqueIds(log)
    ensures g in ActiveGrants(log, None) <==> IsLast(log, g.grantId, None, g) && g.kind == Granted
    ensures g in ActiveGrants(log, None) ==> g in log
  {
    hide ActiveGrants, UniqueIds;
    ActiveGrantsProjectTheFold(log, None);
  }

  /** Whatever an unfired grant permitted, it still permits. */
  lemma UntouchedGrantsStillPermit(c: Config, o: Orders, before: Store, after: Store, at: Instant, end: Instant,
                                   drafts: map<string, Draft>, draft: string -> string, r: CascadeResult,
                                   workId: string, counterpartyId: string, g: GrantEvent, req: Scope, t: Instant)
    requires Sound(c) && Ran(c, before, after, at, end, drafts, draft, r)
    requires !Fires(c, before, Snapshot(c, before), at, g.grantId)
    requires g in ActiveGrants(View(c.names, before, workId, counterpartyId), None) && Admits(o, g.scope, req, t)
    ensures Typed(after, c.names)
    ensures Permitted(o, ActiveGrants(View(c.names, after, workId, counterpartyId), None), req, t)
  {
    hide Sound, Ran, Fires, View, ActiveGrants, Admits, Resolved;
    Frame(c, before, after, at, end, drafts, draft, r, workId, counterpartyId, g.grantId, None);
    StaysActive(View(c.names, before, workId, counterpartyId), View(c.names, after, workId, counterpartyId), g);
  }

  /** A grant whose state is unchanged keeps its place among the active grants. */
  lemma StaysActive(log: seq<GrantEvent>, longer: seq<GrantEvent>, g: GrantEvent)
    requires g in ActiveGrants(log, None)
    requires Resolved(g.grantId, None, longer) == Resolved(g.grantId, None, log)
    ensures g in ActiveGrants(longer, None)
  {
    hide Resolved, Matching, Text.Ascending;
    var gid := ActiveOfOne(log, None, Text.Sorted(GrantIds(log)), g);
    OfGrantResolves(gid, None, log);
    OfGrantResolves(gid, None, longer);
    ActiveIsLogged(gid, longer);
    OneOfActive(longer, None, Text.Sorted(GrantIds(longer)), gid, g);
  }

  lemma {:induction false} ActiveOfOne(log: seq<GrantEvent>, at: Option<Instant>, gids: seq<string>, g: GrantEvent)
    returns (gid: string)
    requires g in ActiveOf(log, at, gids)
    ensures gid == g.grantId && g in ActiveOne(log, at, gid)
  {
    hide ActiveOne;
    gid := gids[|gids| - 1];
    if g in ActiveOne(log, at, gid) {
      ActiveOneNames(log, at, gid, g);
    } else {
      gid := ActiveOfOne(log, at, gids[..|gids| - 1], g);
    }
  }

  lemma ActiveOneNames(log: seq<GrantEvent>, at: Option<Instant>, gid: string, g: GrantEvent)
    requires g in ActiveOne(log, at, gid)
    ensures g.grantId == gid
  {
    hide Defining, Matching;
    ActiveFoldEndsInGrant(gid, at, OfGrant(gid, log));
    var h := Resolved(gid, at, OfGrant(gid, log)).history;
    assert h[|h| - 1] in h;
  }

  lemma {:induction false} OneOfActive(log: seq<GrantEvent>, at: Option<Instant>, gids: seq<string>, gid: string,
                                       g: GrantEvent)
    requires gid in gids && g in ActiveOne(log, at, gid)
    ensures g in ActiveOf(log, at, gids)
  {
    hide ActiveOne;
    if gids[|gids| - 1] != gid {
      assert gids == gids[..|gids| - 1] + [gids[|gids| - 1]];
      OneOfActive(log, at, gids[..|gids| - 1], gid, g);
    }
  }

  // ------------------------------------------------------------------
  // The report
  // ------------------------------------------------------------------

  lemma {:induction false} AffectedMembers(c: Config, snapshot: seq<GrantEvent>, at: Instant, gids: seq<string>)
    ensures forall a :: a in Affected(c, snapshot, at, gids) ==> Selected(c, Resolved(a.grantId, None, snapshot), at)
    ensures forall a :: a in Affected(c, snapshot, at, gids) ==> a in AffectedOne(c, snapshot, at, a.grantId)
    ensures forall g, a :: g in gids && a in AffectedOne(c, snapshot, at, g) ==> a in Affected(c, snapshot, at, gids)
  {
    hide Resolved, Selected;
    if gids != [] {
      AffectedMembers(c, snapshot, at, gids[..|gids| - 1]);
      assert gids == gids[..|gids| - 1] + [gids[|gids| - 1]];
    }
  }

  /** `u` was within reach of some grant the call selected. */
  ghost predicate Lost(c: Config, snapshot: seq<GrantEvent>, at: Instant, u: string) {
    exists gid :: Selected(c, Resolved(gid, None, snapshot), at)
      && Contains(c.order, Resolved(gid, None, snapshot).activeScope.value.useType, u)
  }

  /**
   * The notice does not understate: terminated scopes are exactly the uses lost, and cover the request's own closure.
   */
  lemma TerminatedScopesAreWhatWasLost(c: Config, before: Store, after: Store, at: Instant, drafts: map<string, Draft>,
                                       r: CascadeResult)
    requires Sound(c) && Completed(c, before, after, at, drafts, r)
    ensures forall u :: u in r.terminatedScopes <==> Lost(c, Snapshot(c, before), at, u)
    ensures r.affected != [] ==> forall u :: u in r.derivedScopes ==> u in r.terminatedScopes
    ensures r.affected == [] <==> !exists gid :: Selected(c, Resolved(gid, None, Snapshot(c, before)), at)
  {
    hide Resolved, Injective, Text.Ascending, Phase1, Phase2, Query, NewlyCommitted, Derivation, GrantIds, Affected,
         PartialOrder;
    var snapshot := Snapshot(c, before);
    var gids := Text.Sorted(GrantIds(snapshot));
    AffectedMembers(c, snapshot, at, gids);
    forall gid | Selected(c, Resolved(gid, None, snapshot), at)
      ensures gid in gids && AffectedOne(c, snapshot, at, gid) != []
    {
      SelectedIsLogged(c, gid, snapshot, at);
      assert AffectedOne(c, snapshot, at, gid)[0] in r.affected;
    }
    forall u ensures u in r.terminatedScopes <==> Lost(c, snapshot, at, u) {
      LostIff(c, snapshot, at, gids, r.affected, u);
    }
    if r.affected != [] {
      var a := r.affected[0];
      assert a in r.affected;
      forall u | u in r.derivedScopes ensures u in r.terminatedScopes {
        ReachComposes(c.order, a.originalScope.useType, c.useType, u);
        assert u in TerminatedUnion(r.affected);
      }
    }
  }

  lemma LostIff(c: Config, snapshot: seq<GrantEvent>, at: Instant, gids: seq<string>, affected: seq<AffectedGrant>,
                u: string)
    requires forall a :: a in affected ==>
      Selected(c, Resolved(a.grantId, None, snapshot), at) && a in AffectedOne(c, snapshot, at, a.grantId)
    requires forall g :: Selected(c, Resolved(g, None, snapshot), at) ==> g in gids
    requires forall g, a :: g in gids && a in AffectedOne(c, snapshot, at, g) ==> a in affected
    ensures u in TerminatedUnion(affected) <==> Lost(c, snapshot, at, u)
  {
    hide Resolved, Text.Ascending;
    if u in TerminatedUnion(affected) {
      var a :| a in affected && u in a.terminatedScopes;
      assert Selected(c, Resolved(a.grantId, None, snapshot), at);
    }
    if Lost(c, snapshot, at, u) {
      var gid :| Selected(c, Resolved(gid, None, snapshot), at)
        && Contains(c.order, Resolved(gid, None, snapshot).activeScope.value.useType, u);
      var a := AffectedOne(c, snapshot, at, gid)[0];
      assert a in affected && u in a.terminatedScopes;
    }
  }

  lemma ReachComposes(order: Order, held: string, revoked: string, u: string)
    requires PartialOrder(order) && Contains(order, held, revoked) && u in Reach(order, revoked)
    ensures u in Reach(order, held)
  {
    assert Contains(order, revoked, u);
  }

  // ------------------------------------------------------------------
  // A first, uninterrupted call reports exactly what it did
  // ------------------------------------------------------------------

  /** The row is owed for this affected grant and carries the text drafted for it. */
  ghost predicate RowAnswers(c: Config, drafts: map<string, Draft>, row: OutboxRow, a: AffectedGrant) {
    && row.grantId == a.grantId && row.counterpartyId == a.counterpartyId && row.operationId == c.operationId
    && row.noticeText == DraftFor(drafts, a.grantId).text && row.revokedAt == DraftFor(drafts, a.grantId).now
  }

  ghost predicate RowsAnswer(c: Config, drafts: map<string, Draft>, rows: seq<OutboxRow>,
                             affected: seq<AffectedGrant>) {
    |rows| == |affected| && forall i :: 0 <= i < |rows| ==> RowAnswers(c, drafts, rows[i], affected[i])
  }

  lemma RowsAnswerConcat(c: Config, drafts: map<string, Draft>, r1: seq<OutboxRow>, a1: seq<AffectedGrant>,
                         r2: seq<OutboxRow>, a2: seq<AffectedGrant>)
    requires RowsAnswer(c, drafts, r1, a1) && RowsAnswer(c, drafts, r2, a2)
    ensures RowsAnswer(c, drafts, r1 + r2, a1 + a2)
  {
    hide RowAnswers;
  }

  lemma OneRowAnswers(c: Config, snapshot: seq<GrantEvent>, at: Instant, drafts: map<string, Draft>, gid: string)
    requires Selected(c, Resolved(gid, None, snapshot), at)
    ensures RowsAnswer(c, drafts, [RowFor(c, Resolved(gid, None, snapshot), DraftFor(drafts, gid))],
                       AffectedOne(c, snapshot, at, gid))
  {
    FoldNamesGrant(gid, None, snapshot);
  }

  /** One fired row per affected grant, in the same order, when every selected pair is free. */
  lemma {:induction false} RowsMatchAffected(c: Config, s: Store, snapshot: seq<GrantEvent>, at: Instant,
                                             drafts: map<string, Draft>, gids: seq<string>)
    requires forall gid :: gid in gids && Selected(c, Resolved(gid, None, snapshot), at) ==> Clear(c, s, gid)
    ensures RowsAnswer(c, drafts, FiredRows(c, s, snapshot, at, drafts, gids), Affected(c, snapshot, at, gids))
    ensures |FiredRows(c, s, snapshot, at, drafts, gids)| == |FiredEvents(c, s, snapshot, at, drafts, gids)|
  {
    if gids != [] {
      var front, gid := gids[..|gids| - 1], gids[|gids| - 1];
      hide Resolved, Clear, EffectId, RowsAnswer, RowFor, RevokedEventFor, Selected;
      RowsMatchAffected(c, s, snapshot, at, drafts, front);
      assert gid in gids;
      if Selected(c, Resolved(gid, None, snapshot), at) {
        OneRowAnswers(c, snapshot, at, drafts, gid);
        RowsAnswerConcat(c, drafts, FiredRows(c, s, snapshot, at, drafts, front), Affected(c, snapshot, at, front),
                         [RowFor(c, Resolved(gid, None, snapshot), DraftFor(drafts, gid))],
                             AffectedOne(c, snapshot, at, gid));
      } else {
        assert Affected(c, snapshot, at, gids) == Affected(c, snapshot, at, front);
        assert FiredRows(c, s, snapshot, at, drafts, gids) == FiredRows(c, s, snapshot, at, drafts, front);
      }
    } else {
      assert RowsAnswer(c, drafts, [], []);
    }
  }

  lemma {:induction false} RowsAscend(c: Config, s: Store, snapshot: seq<GrantEvent>, at: Instant,
                                      drafts: map<string, Draft>, gids: seq<string>)
    requires Text.Ascending(gids)
    ensures SortedBy(RowLeq, FiredRows(c, s, snapshot, at, drafts, gids))
  {
    if gids != [] {
      var front, gid := gids[..|gids| - 1], gids[|gids| - 1];
      hide Resolved, Clear, Selected, EffectId;
      RowsAscend(c, s, snapshot, at, drafts, front);
      RowMembers(c, s, snapshot, at, drafts, front);
      FoldNamesGrant(gid, None, snapshot);
      var rows := FiredRows(c, s, snapshot, at, drafts, front);
      forall i | 0 <= i < |rows| ensures Text.Leq(rows[i].grantId, gid) {
        assert rows[i] in rows;
        BelowLast(gids, rows[i].grantId);
      }
    }
  }

  /** The rows the operation owes after phase 1: what it owed before, then the rows just fired. */
  lemma OwedGrows(c: Config, before: Store, mid: Store, rows: seq<OutboxRow>)
    requires Typed(before, c.names) && Typed(mid, c.names) && mid.served == before.served
    requires Written(mid, c.names.outbox) == Written(before, c.names.outbox) + RowEntries(rows)
    requires forall r :: r in rows ==> r.operationId == c.operationId
    ensures Owed(c, mid) == Owed(c, before) + rows
  {
    hide Typed, Served, Written, Select, Satisfies;
    var filters := map["operation_id" := c.operationId];
    var tail := DocsOf(RowEntries(rows));
    QueryGrows(before, mid, c.names.outbox, RowEntries(rows), filters);
    RowDocs(c, rows);
    SelectAll(tail, filters);
    RowsTyped(c, before);
    RowsTyped(c, mid);
    RowsConcat(Query(before, c.names.outbox, filters), tail);
    assert RowsOf(tail) == rows;
  }

  lemma RowDocs(c: Config, rows: seq<OutboxRow>)
    requires forall r :: r in rows ==> r.operationId == c.operationId
    ensures forall d :: d in DocsOf(RowEntries(rows)) ==>
      d.OutboxDoc? && Satisfies(d, map["operation_id" := c.operationId])
  {
    var tail := DocsOf(RowEntries(rows));
    forall d | d in tail ensures d.OutboxDoc? && Satisfies(d, map["operation_id" := c.operationId]) {
      var i :| 0 <= i < |tail| && tail[i] == d;
      assert rows[i] in rows;
    }
  }

  lemma RowsConcat(a: seq<Doc>, b: seq<Doc>)
    requires (forall d :: d in a ==> d.OutboxDoc?) && (forall d :: d in b ==> d.OutboxDoc?)
    ensures RowsOf(a + b) == RowsOf(a) + RowsOf(b)
  {
  }

  lemma RowsTyped(c: Config, s: Store)
    requires Typed(s, c.names)
    ensures forall d :: d in Query(s, c.names.outbox, map["operation_id" := c.operationId]) ==> d.OutboxDoc?
  {
  }

  lemma {:induction false} SelectAll(docs: seq<Doc>, filters: map<string, string>)
    requires forall d :: d in docs ==> Satisfies(d, filters)
    ensures Select(docs, filters) == docs
  {
    hide Satisfies;
    if docs != [] {
      var front, last := docs[..|docs| - 1], docs[|docs| - 1];
      assert last in docs && docs == front + [last];
      assert forall d :: d in front ==> d in docs;
      assert Select(docs, filters) == Select(front, filters) + [last];
      hide Select;
      SelectAll(front, filters);
    }
  }

  /** The receipt names the grant, its counterparty and the instant it was terminated, under the operation's own id. */
  ghost predicate Acknowledges(c: Config, drafts: map<string, Draft>, receipt: Receipt, a: AffectedGrant) {
    && receipt.revocationId == EffectId(c.h, c.operationId, a.grantId, RECEIPT)
    && receipt.grantId == a.grantId && receipt.counterpartyId == a.counterpartyId
    && receipt.revokedAt == DraftFor(drafts, a.grantId).now
  }

  lemma ReceiptsAcknowledge(c: Config, drafts: map<string, Draft>, rows: seq<OutboxRow>, affected: seq<AffectedGrant>)
    requires RowsAnswer(c, drafts, rows, affected)
    ensures forall i :: 0 <= i < |rows| ==> Acknowledges(c, drafts, Receipts(c, rows)[i], affected[i])
  {
    hide EffectId;
    forall i | 0 <= i < |rows| ensures Acknowledges(c, drafts, Receipts(c, rows)[i], affected[i]) {
      assert RowAnswers(c, drafts, rows[i], affected[i]);
    }
  }

  /**
   * Receipt by receipt and grant by grant: each affected grant gets one receipt, nothing is replayed, every text is its
   * draft, and is the text of the stored notice unless the notice's id was taken before the call.
   */
  ghost predicate ReportsExactly(c: Config, before: Store, after: Store, drafts: map<string, Draft>, r: CascadeResult,
                                 rows: seq<OutboxRow>) {
    && r.replayed == 0 && |r.receipts| == |r.affected|
    && (forall i :: 0 <= i < |r.receipts| ==> Acknowledges(c, drafts, r.receipts[i], r.affected[i]))
    && RowsAnswer(c, drafts, rows, r.affected)
    && forall row :: row in rows ==>
      Taken(after, NoticeWrite(c, row)) && (Taken(before, NoticeWrite(c, row)) || Carried(c, after, row))
  }

  lemma FreshRunReportsExactly(c: Config, before: Store, after: Store, at: Instant, drafts: map<string, Draft>,
                               r: CascadeResult)
    requires Sound(c) && Completed(c, before, after, at, drafts, r)
    requires AllClear(c, before, at) && Owed(c, before) == []
    ensures ReportsExactly(c, before, after, drafts, r, AddedRows(c, before, at, drafts))
  {
    hide Resolved, Selected, Clear, Phase1, Phase2, NewlyCommitted, Affected, Typed, Query, Snapshot, GrantIds,
         Injective, PartialOrder, Derivation, Text.Ascending, FiredRows, FiredEvents, Taken, NoticeWrite, Written,
         SortBy, Extends, RowAnswers, EffectId, Carried, RowFor, OneRowPerGrant;
    var snapshot := Snapshot(c, before);
    var gids := Text.Sorted(GrantIds(snapshot));
    var mid := Phase1(c, before, snapshot, at, drafts, gids);
    var rows := AddedRows(c, before, at, drafts);
    RowsMatchAffected(c, before, snapshot, at, drafts, gids);
    FreshRunOwes(c, before, mid, snapshot, at, drafts, gids, rows);
    Phase2Frame(c, mid, rows);
    FreshNotices(c, before, mid, rows);
    ReceiptsAcknowledge(c, drafts, rows, r.affected);
  }

  /** After phase 1 of a first call the operation owes the rows just fired, one per grant and in grant order. */
  lemma FreshRunOwes(c: Config, before: Store, mid: Store, snapshot: seq<GrantEvent>, at: Instant,
                     drafts: map<string, Draft>, gids: seq<string>, rows: seq<OutboxRow>)
    requires Sound(c) && Typed(before, c.names) && Typed(mid, c.names) && Owed(c, before) == [] && Text.Ascending(gids)
    requires mid == Phase1(c, before, snapshot, at, drafts, gids)
    requires rows == FiredRows(c, before, snapshot, at, drafts, gids)
    ensures Owed(c, mid) == rows && SortBy(RowLeq, Owed(c, mid)) == rows && OneRowPerGrant(rows)
    ensures Written(mid, c.names.notices) == Written(before, c.names.notices) && Injective(c.h)
    ensures NewlyCommitted(c, before, snapshot, at, drafts, gids)
      == |FiredEvents(c, before, snapshot, at, drafts, gids)|
  {
    hide Resolved, Selected, Clear, Phase1, NewlyCommitted, Typed, Query, Injective, PartialOrder, Text.Ascending,
         FiredRows, FiredEvents, Written, SortBy, EffectId, RowEntries, EventEntries, RowLeq;
    Phase1Shape(c, before, snapshot, at, drafts, gids);
    RowMembers(c, before, snapshot, at, drafts, gids);
    RowsAscend(c, before, snapshot, at, drafts, gids);
    OwedGrows(c, before, mid, rows);
    SortOfSorted(RowLeq, rows);
  }

  ghost predicate OneRowPerGrant(rows: seq<OutboxRow>) {
    forall a, b :: a in rows && b in rows && a.grantId == b.grantId ==> a == b
  }

  lemma FreshNotices(c: Config, before: Store, mid: Store, rows: seq<OutboxRow>)
    requires Injective(c.h) && OneRowPerGrant(rows) && Written(mid, c.names.notices) == Written(before, c.names.notices)
    ensures forall row :: row in rows ==> Taken(before, NoticeWrite(c, row)) || Carried(c, Phase2(c, mid, rows), row)
  {
    hide EffectId, Injective, Phase2, Written;
    forall row | row in rows && !Taken(before, NoticeWrite(c, row)) ensures Carried(c, Phase2(c, mid, rows), row) {
      DeliveredAsOwed(c, mid, rows, row);
    }
  }

  lemma {:induction false} OneRowPerEvent(c: Config, s: Store, snapshot: seq<GrantEvent>, at: Instant,
                                          drafts: map<string, Draft>, gids: seq<string>)
    ensures |FiredRows(c, s, snapshot, at, drafts, gids)| == |FiredEvents(c, s, snapshot, at, drafts, gids)|
  {
    hide Resolved, Selected, Clear, RowFor, RevokedEventFor;
    if gids != [] {
      OneRowPerEvent(c, s, snapshot, at, drafts, gids[..|gids| - 1]);
    }
  }

  /** `replayed_effects` is exactly the number of rows the operation already owed: nonzero exactly on a retry. */
  lemma ReplayedCountsLeftovers(c: Config, before: Store, after: Store, at: Instant, drafts: map<string, Draft>,
                                r: CascadeResult)
    requires Sound(c) && Completed(c, before, after, at, drafts, r)
    ensures Typed(before, c.names) && r.replayed == |Owed(c, before)|
  {
    hide Resolved, Selected, Clear, Phase1, Phase2, NewlyCommitted, Affected, Typed, Query, Snapshot, GrantIds,
         Injective, PartialOrder, Derivation, Text.Ascending, FiredRows, FiredEvents, Written, SortBy, RowEntries,
         EventEntries, EffectId;
    var snapshot := Snapshot(c, before);
    var gids := Text.Sorted(GrantIds(snapshot));
    var mid := Phase1(c, before, snapshot, at, drafts, gids);
    var rows := AddedRows(c, before, at, drafts);
    Phase1Shape(c, before, snapshot, at, drafts, gids);
    RowMembers(c, before, snapshot, at, drafts, gids);
    OneRowPerEvent(c, before, snapshot, at, drafts, gids);
    OwedGrows(c, before, mid, rows);
    var sorted := SortBy(RowLeq, Owed(c, mid));
    assert |sorted| == |multiset(sorted)| == |multiset(Owed(c, mid))| == |Owed(c, mid)|;
  }

  // ------------------------------------------------------------------
  // A retry acknowledges what the first call acknowledged
  // ------------------------------------------------------------------

  predicate InOutbox(n: Names, s: Store, row: OutboxRow) {
    OutboxDoc(row) in Served(s, n.outbox) + DocsOf(Written(s, n.outbox))
  }

  /** What the operation owes: its rows of the outbox, and no other. */
  lemma OwedMembers(c: Config, s: Store, row: OutboxRow)
    requires Typed(s, c.names)
    ensures row in Owed(c, s) <==> InOutbox(c.names, s, row) && row.operationId == c.operationId
  {
    var filters := map["operation_id" := c.operationId];
    var docs := Query(s, c.names.outbox, filters);
    RowsTyped(c, s);
    assert Satisfies(OutboxDoc(row), filters) <==> row.operationId == c.operationId by {
      assert "operation_id" in filters;
    }
    hide Typed, Satisfies;
    var rows := RowsOf(docs);
    if OutboxDoc(row) in docs {
      var i :| 0 <= i < |docs| && docs[i] == OutboxDoc(row);
      assert rows[i] == row;
    }
    if row in rows {
      var i :| 0 <= i < |rows| && rows[i] == row;
      assert docs[i] in docs && docs[i] == OutboxDoc(row);
    }
  }

  lemma OutboxGrows(n: Names, s: Store, t: Store, row: OutboxRow)
    requires t.served == s.served && Written(s, n.outbox) <= Written(t, n.outbox) && InOutbox(n, s, row)
    ensures InOutbox(n, t, row)
  {
    var b, x := Written(s, n.outbox), Written(t, n.outbox);
    assert x == b + x[|b|..];
    BucketConcat(b, x[|b|..]);
  }

  /** The rows a completed call delivered, as a set: all its operation's rows in the store it left. */
  lemma DeliveredRows(c: Config, before: Store, after: Store, at: Instant, drafts: map<string, Draft>, r: CascadeResult)
    requires Sound(c) && Completed(c, before, after, at, drafts, r)
    ensures Typed(after, c.names)
    ensures forall x :: x in r.receipts <==> exists row :: row in Owed(c, after) && x == ReceiptFor(c, row)
  {
    var mid := CompletedThrough(c, before, after, at, drafts, r);
    var rows := SortBy(RowLeq, Owed(c, mid));
    ExactEffect(c, before, after, at, drafts, r);
    hide *;
    Phase2Frame(c, mid, rows);
    SameMembers(Owed(c, mid), rows);
    NamesApart(c);
    ReceiptMembers(c, rows);
    forall row ensures row in Owed(c, after) <==> row in rows {
      OwedMembers(c, mid, row);
      OwedMembers(c, after, row);
      SameOutbox(c.names, mid, after, row);
    }
  }

  lemma CompletedThrough(c: Config, before: Store, after: Store, at: Instant, drafts: map<string, Draft>,
                         r: CascadeResult) returns (mid: Store)
    requires Completed(c, before, after, at, drafts, r)
    ensures Typed(mid, c.names) && after == Phase2(c, mid, SortBy(RowLeq, Owed(c, mid)))
    ensures r.receipts == Receipts(c, SortBy(RowLeq, Owed(c, mid)))
    ensures multiset(SortBy(RowLeq, Owed(c, mid))) == multiset(Owed(c, mid))
  {
    hide Phase1, Phase2, Owed, Typed, Snapshot, Derivation, NewlyCommitted, Affected, Text.Ascending;
    mid := Phase1(c, before, Snapshot(c, before), at, drafts, Text.Sorted(GrantIds(Snapshot(c, before))));
  }

  lemma ReceiptMembers(c: Config, rows: seq<OutboxRow>)
    ensures forall x :: x in Receipts(c, rows) <==> exists row :: row in rows && x == ReceiptFor(c, row)
  {
    hide ReceiptFor;
    var receipts := Receipts(c, rows);
    forall x | x in receipts ensures exists row :: row in rows && x == ReceiptFor(c, row) {
      var i :| 0 <= i < |receipts| && receipts[i] == x;
      assert rows[i] in rows;
    }
    forall row | row in rows ensures ReceiptFor(c, row) in receipts {
      var i :| 0 <= i < |rows| && rows[i] == row;
      assert receipts[i] == ReceiptFor(c, row);
    }
  }

  lemma NamesApart(c: Config)
    requires Sound(c)
    ensures c.names.outbox != c.names.notices
  {
  }

  lemma SameOutbox(n: Names, s: Store, t: Store, row: OutboxRow)
    requires t.served == s.served && Written(t, n.outbox) == Written(s, n.outbox)
    ensures InOutbox(n, t, row) <==> InOutbox(n, s, row)
  {
  }

  /** A completed retry, begun in any store grown from the first call's, returns every receipt the first returned. */
  lemma RetryReturnsTheReceipts(c: Config, before: Store, after: Store, at: Instant, drafts: map<string, Draft>,
                                r: CascadeResult, again: Store, end: Store, atAgain: Instant,
                                draftsAgain: map<string, Draft>, rAgain: CascadeResult)
    requires Sound(c) && Completed(c, before, after, at, drafts, r) && Extends(after, again)
    requires Completed(c, again, end, atAgain, draftsAgain, rAgain)
    ensures forall x :: x in r.receipts ==> x in rAgain.receipts
  {
    ExactEffect(c, again, end, atAgain, draftsAgain, rAgain);
    hide Completed, Sound, Owed, Typed, Written, InOutbox, ReceiptFor;
    DeliveredRows(c, before, after, at, drafts, r);
    DeliveredRows(c, again, end, atAgain, draftsAgain, rAgain);
    assert Written(after, c.names.outbox) <= Written(end, c.names.outbox);
    forall row | row in Owed(c, after) ensures row in Owed(c, end) {
      OwedMembers(c, after, row);
      OwedMembers(c, end, row);
      OutboxGrows(c.names, after, end, row);
    }
  }

  /**
   * A second call under the operation id of a completed one, on any store grown from it: when policy and lease let it
   * pass it completes, and whenever it completes it returns every receipt the first returned.
   */
  method RetryCascade(p: RevocationPropagator, workId: string, useType: string, operationId: string,
                      leaseId: Option<string>, clock: Clock, draft: string -> string, ghost before: Store,
                      ghost after: Store, ghost at: Instant, ghost drafts: map<string, Draft>,
                      ghost first: CascadeResult)
    returns (out: Outcome<CascadeResult>)
    requires operationId != "" && Typed(p.gateway.store, Namespaced(p.ns)) && Extends(after, p.gateway.store)
    requires Sound(p.ConfigFor(workId, useType, operationId))
    requires Completed(p.ConfigFor(workId, useType, operationId), before, after, at, drafts, first)
    modifies p.gateway`denials, p.gateway`store, clock
    ensures p.WillPass(leaseId, old(clock.now), clock.now) ==> out.Done?
    ensures out.Done? ==> out.value.operationId == first.operationId
    ensures out.Done? ==> forall x :: x in first.receipts ==> x in out.value.receipts
  {
    ghost var c := p.ConfigFor(workId, useType, operationId);
    ghost var again := p.gateway.store;
    assert PartialOrder(p.order);
    hide *;
    SameOperationAsked(operationId, "");
    ghost var atAgain, draftsAgain;
    out, atAgain, draftsAgain :=
      p.ExecuteRevocationCascade(workId, useType, Some(operationId), "", leaseId, clock, draft);
    if out.Done? {
      RetryReturnsTheReceipts(c, before, after, at, drafts, first, again, p.gateway.store, atAgain, draftsAgain,
                              out.value);
      SameOperationReported(c, before, after, at, drafts, first);
      SameOperationReported(c, again, p.gateway.store, atAgain, draftsAgain, out.value);
    }
  }

  lemma SameOperationAsked(operationId: string, newId: string)
    requires operationId != ""
    ensures OperationOr(Some(operationId), newId) == operationId
  {
  }

  lemma SameOperationReported(c: Config, before: Store, after: Store, at: Instant, drafts: map<string, Draft>,
                              r: CascadeResult)
    requires Completed(c, before, after, at, drafts, r)
    ensures r.operationId == c.operationId
  {
    hide Phase1, Phase2, Owed, Typed, Snapshot, Derivation, NewlyCommitted, Affected, Text.Ascending;
  }

  /** Two calls that request no operation, under ids drawn apart, run as two operations. */
  lemma UnnamedCallsAreTwoOperations(first: string, second: string)
    requires first != second
    ensures forall none :: none in {None, Some("")} ==> OperationOr(none, first) == first != OperationOr(none, second)
  {
  }
}
