/** The incident run: observe, investigate, adjudicate, contain, close, each step behind its own wall. */
module IncidentEngine {
  import opened Scopes
  import opened Lattice
  import opened Resolver
  import opened Effects
  import opened Gateway
  import opened Cascade
  import opened CascadeTheorems
  import opened Adjudication
  import opened Documents
  import opened Package
  import opened Legibility
  import opened Closing
  import Sorting
  import T = Timestamps
  import Text

  datatype Status = Observed | Investigating | Adjudicated | Contained | Closed

  /** The only order a lifecycle may move in. */
  function Rank(s: Status): nat {
    match s
    case Observed => 0
    case Investigating => 1
    case Adjudicated => 2
    case Contained => 3
    case Closed => 4
  }

  function StatusName(s: Status): string {
    match s
    case Observed => "observed"
    case Investigating => "investigating"
    case Adjudicated => "adjudicated"
    case Contained => "contained"
    case Closed => "closed"
  }

  datatype LifecycleEvent = LifecycleEvent(eventId: string, incidentId: string, status: Status, recordedAt: Instant)

  /** `{incident}:{seq:02d}:{status}` */
  function LifecycleId(incidentId: string, n: nat, status: Status): string {
    incidentId + ":" + (if n < 10 then "0" + Decimal(n) else Decimal(n)) + ":" + StatusName(status)
  }

  /** The place is written with at least two digits. */
  lemma PlacesShown()
    ensures LifecycleId("i", 0, Observed) == "i:00:observed" && LifecycleId("i", 12, Closed) == "i:12:closed"
  {
    assert Decimal(12) == "12";
  }

  function Statuses(lifecycle: seq<LifecycleEvent>): (r: seq<Status>)
    ensures |r| == |lifecycle| && forall i :: 0 <= i < |r| ==> r[i] == lifecycle[i].status
  {
    seq(|lifecycle|, i requires 0 <= i < |lifecycle| => lifecycle[i].status)
  }

  const NO_GRANT := "no active grant"
  const SOME_GRANTS := "active grants in the fold"
  const LIMIT := "an HTTP fetch establishes a request, not ingestion, and not training"
  const ADVOCATE := "counterparty-advocate (external)"
  const BASIS := "fold over the principal's grants"
  const INCIDENTS := "incidents"
  const FREEZES := "negotiation_freezes"

  /** Every event is numbered, stored under its id, and dated after the one before. */
  ghost predicate OnRecord(s: Store, incidentId: string, lifecycle: seq<LifecycleEvent>, now: Instant) {
    && (forall i :: 0 <= i < |lifecycle| ==> lifecycle[i].eventId == LifecycleId(incidentId, i, lifecycle[i].status))
    && (forall i :: 0 <= i < |lifecycle| ==> HasId(Written(s, INCIDENTS), lifecycle[i].eventId))
    && (forall i, j :: 0 <= i < j < |lifecycle| ==> lifecycle[i].recordedAt < lifecycle[j].recordedAt)
    && (forall i :: 0 <= i < |lifecycle| ==> lifecycle[i].recordedAt <= now)
  }

  /** The course a run that closes takes. */
  function Course(outside: bool): seq<Status> {
    [Observed, Investigating, Adjudicated] + (if outside then [Contained] else []) + [Closed]
  }

  /** Strictly forward, and through containment exactly when an access outside the policy is established. */
  lemma CourseAscends(outside: bool)
    ensures forall i, j :: 0 <= i < j < |Course(outside)| ==> Rank(Course(outside)[i]) < Rank(Course(outside)[j])
    ensures Contained in Course(outside) <==> outside
  {
    var c := Course(outside);
    if outside {
      assert c[3] == Contained;
    } else {
      assert c == [Observed, Investigating, Adjudicated, Closed];
    }
  }

  datatype Accounts = Accounts(evidence: string, arbiter: string, negotiator: string, custodian: string,
                               propagator: string)

  datatype Moved = MovedTo(lifecycle: seq<LifecycleEvent>) | Illegal | Raised

  datatype Reading = Seen(observation: Observation) | Absent | Unreadable

  /**
   * How a run ends: closed with its record, refused for lack of an observation, an illegal transition, or an exception
   * from below.
   */
  datatype Ending =
    | ClosedWith(result: IncidentResult, lifecycle: seq<LifecycleEvent>, active: seq<GrantEvent>)
    | NoObservation
    | IllegalTransition
    | Failed

  function OfWork(workId: string, events: seq<GrantEvent>): seq<GrantEvent> {
    if events == [] then []
    else
      var last := events[|events| - 1];
      OfWork(workId, events[..|events| - 1]) + if last.workId == workId then [last] else []
  }

  /** The access policy the work's first stored document declares, if any. */
  function DeclaredPolicy(s: Store, workId: string): Option<string> {
    var rows := Query(s, "works", map["work_id" := workId]);
    if rows == [] then None else Field(rows[0], "declared_access_policy")
  }

  /** The observation is what the first access row of that record says, about the work the caller named. */
  ghost predicate Records(parse: string -> Option<Instant>, s: Store, recordId: string, workId: string,
                          o: Observation) {
    var rows := Query(s, "crawler_access", map["record_id" := recordId]);
    && rows != [] && o.observationId == recordId && o.workId == workId
    && Field(rows[0], "user_agent") == Some(o.declaredUserAgent) && Field(rows[0], "path") == Some(o.path)
    && Field(rows[0], "observed_at").Some? && parse(Field(rows[0], "observed_at").value) == Some(o.observedAt)
    && o.detail == (if Field(rows[0], "detail").Some? then Field(rows[0], "detail").value else "")
  }

  /** The principal's grants on the work that were active at the instant, as the negotiator's session shows them. */
  ghost function ActiveThen(s: Store, workId: string, principal: string, at: Instant): seq<GrantEvent>
    requires Typed(s, Namespaced(""))
  {
    OfWork(workId, ActiveGrants(View(Namespaced(""), s, workId, principal), Some(at)))
  }

  /** Everything but the collection is as it was. */
  ghost predicate OnlyTouched(s: Store, t: Store, collection: string) {
    t.served == s.served && forall k :: k != collection ==> Written(t, k) == Written(s, k)
  }

  /** The log of grants is as it was. */
  ghost predicate SameGrants(s: Store, t: Store) {
    t.served == s.served && Written(t, "grants") == Written(s, "grants")
  }

  /** One termination through the cascade: what it was asked, the stores and instants around it, what it reported. */
  datatype Termination = Termination(c: Config, before: Store, after: Store, at: Instant, end: Instant,
                                     drafts: map<string, Draft>, result: CascadeResult)

  ghost predicate CarriedOut(k: Termination, draft: string -> string) {
    Ran(k.c, k.before, k.after, k.at, k.end, k.drafts, draft, k.result)
  }

  predicate ForbidsAutomation(policy: Option<string>) {
    policy == Some("human_reference_only") || policy == Some("no_automated_ingestion")
  }

  ghost function NoResult(): CascadeResult {
    CascadeResult("", "", [], [], [], [], [], 0)
  }

  lemma MakeCarried(k: Termination, draft: string -> string)
    requires Completed(k.c, k.before, k.after, k.at, k.drafts, k.result)
    requires Drafted(k.c, k.before, k.at, k.drafts, draft)
    requires DraftsAfter(k.drafts, k.at, k.end) && k.at <= k.end
    ensures CarriedOut(k, draft)
  {
    hide Completed, Drafted, DraftsAfter;
  }

  lemma NotEmpty(a: string, b: string)
    requires a != ""
    ensures a + b != "" && OperationOr(Some(a + b), "") == a + b && forall x :: OperationOr(Some(a + b), x) == a + b
  {
    assert |a + b| > 0;
  }

  /** What containment did to grants: at most one termination, under the incident's own operation, and nothing else. */
  ghost predicate GrantsMovedBy(s: Store, t: Store, k: Option<Termination>, draft: string -> string) {
    match k
    case None => SameGrants(s, t)
    case Some(x) => SameGrants(s, x.before) && SameGrants(x.after, t) && CarriedOut(x, draft)
  }

  lemma ContainedThen(s: Store, t: Store, u: Store, k: Option<Termination>, draft: string -> string)
    requires GrantsMovedBy(s, t, k, draft) && SameGrants(t, u)
    ensures GrantsMovedBy(s, u, k, draft)
  {
    hide SameGrants, CarriedOut;
    if k.None? {
      GrantsSameTwice(s, t, u);
    } else {
      GrantsSameTwice(k.value.after, t, u);
    }
  }

  lemma ThenContained(s: Store, t: Store, u: Store, k: Option<Termination>, draft: string -> string)
    requires SameGrants(s, t) && GrantsMovedBy(t, u, k, draft)
    ensures GrantsMovedBy(s, u, k, draft)
  {
    hide SameGrants, CarriedOut;
    if k.None? {
      GrantsSameTwice(s, t, u);
    } else {
      GrantsSameTwice(s, t, k.value.before);
    }
  }

  lemma NothingContained(s: Store, t: Store, draft: string -> string)
    requires SameGrants(s, t)
    ensures GrantsMovedBy(s, t, None, draft)
  {
  }

  lemma OneContained(s: Store, k: Termination, draft: string -> string)
    requires SameGrants(s, k.before) && CarriedOut(k, draft)
    ensures GrantsMovedBy(s, k.after, Some(k), draft)
  {
    GrantsSelf(k.after);
  }

  lemma SameView(s: Store, t: Store, workId: string, counterpartyId: string)
    requires SameGrants(s, t) && Typed(s, Namespaced("")) && Typed(t, Namespaced(""))
    ensures View(Namespaced(""), t, workId, counterpartyId) == View(Namespaced(""), s, workId, counterpartyId)
    ensures forall e :: Logged(Namespaced(""), t, e) <==> Logged(Namespaced(""), s, e)
  {
    NamesFree();
    hide Typed, Written, EventsOf, Select;
  }

  /**
   * Containment revokes the use of the first active grant, so of the grants of any counterparty active on the work it
   * ends exactly those at or above that use whose window is open and whose ids are free; the others stay active.
   */
  lemma ContainmentEndsExactly(s: Store, t: Store, k: Termination, draft: string -> string, counterpartyId: string,
                               g: GrantEvent)
    requires GrantsMovedBy(s, t, Some(k), draft) && Sound(k.c) && k.c.names == Namespaced("")
    requires Typed(s, Namespaced("")) && Typed(t, Namespaced(""))
    requires NothingFromTheFuture(k.c, s, k.at) && Premises(k.c, t)
    requires g in ActiveGrants(View(Namespaced(""), s, k.c.workId, counterpartyId), None)
    ensures g in ActiveGrants(View(Namespaced(""), t, k.c.workId, counterpartyId), None) <==>
      !Exposed(k.c, k.before, k.at, g)
  {
    CarriedOutTyped(k, draft);
    hide Typed, ActiveGrants, View, Sound, Ran, Exposed, Logged, SameGrants, Premises, NothingFromTheFuture;
    SameView(s, k.before, k.c.workId, counterpartyId);
    SameView(k.after, t, k.c.workId, counterpartyId);
    SamePremises(k.c, s, k.before, k.after, t, k.at);
    EndsExactlyTheExposed(k.c, k.before, k.after, k.at, k.end, k.drafts, draft, k.result, counterpartyId, g);
  }

  lemma SamePremises(c: Config, s: Store, before: Store, after: Store, t: Store, at: Instant)
    requires c.names == Namespaced("") && NothingFromTheFuture(c, s, at) && Premises(c, t)
    requires forall e :: Logged(c.names, before, e) <==> Logged(c.names, s, e)
    requires forall e :: Logged(c.names, t, e) <==> Logged(c.names, after, e)
    ensures NothingFromTheFuture(c, before, at) && Premises(c, after)
  {
    hide Logged;
  }

  lemma CarriedOutTyped(k: Termination, draft: string -> string)
    requires CarriedOut(k, draft) && Sound(k.c)
    ensures Ran(k.c, k.before, k.after, k.at, k.end, k.drafts, draft, k.result)
    ensures Typed(k.before, k.c.names) && Typed(k.after, k.c.names)
  {
    assert Completed(k.c, k.before, k.after, k.at, k.drafts, k.result);
    hide Drafted, DraftsAfter, Sound;
    CompletedIsTyped(k);
    hide Completed;
    ExactEffect(k.c, k.before, k.after, k.at, k.drafts, k.result);
  }

  lemma CompletedIsTyped(k: Termination)
    requires Completed(k.c, k.before, k.after, k.at, k.drafts, k.result)
    ensures Typed(k.before, k.c.names)
  {
    hide Typed, Snapshot, Phase1, Phase2, Owed, Sorting.SortBy, Receipts, NewlyCommitted, Affected, GrantIds,
         Text.Ascending, Derivation;
  }

  lemma ActiveThenIs(s: Store, workId: string, principal: string, at: Instant)
    requires Typed(s, Namespaced(""))
    ensures ActiveThen(s, workId, principal, at)
      == OfWork(workId, ActiveGrants(View(Namespaced(""), s, workId, principal), Some(at)))
  {
  }

  lemma DeclaredIn(s: Store, workId: string)
    ensures var rows := Query(s, "works", map["work_id" := workId]);
      DeclaredPolicy(s, workId) == if rows == [] then None else Field(rows[0], "declared_access_policy")
  {
  }

  lemma ForbiddenIsDeclared(policy: Option<string>)
    ensures ForbidsAutomation(policy) ==> policy.Some?
  {
  }

  lemma OnRecordPersists(s: Store, t: Store, incidentId: string, lifecycle: seq<LifecycleEvent>, now: Instant,
                         later: Instant)
    requires OnRecord(s, incidentId, lifecycle, now) && Extends(s, t) && now <= later
    ensures OnRecord(t, incidentId, lifecycle, later)
  {
    hide LifecycleId, Written;
    var b, c := Written(s, INCIDENTS), Written(t, INCIDENTS);
    assert b <= c;
    forall i | 0 <= i < |lifecycle| ensures HasId(c, lifecycle[i].eventId) {
      var k :| 0 <= k < |b| && b[k].id == lifecycle[i].eventId;
      assert c[k] == b[k];
    }
  }

  lemma OnRecordGrows(s: Store, t: Store, incidentId: string, lifecycle: seq<LifecycleEvent>, now: Instant,
                      e: LifecycleEvent)
    requires OnRecord(s, incidentId, lifecycle, now) && now < e.recordedAt
    requires e.eventId == LifecycleId(incidentId, |lifecycle|, e.status)
    requires Extends(s, t) && HasId(Written(t, INCIDENTS), e.eventId)
    ensures OnRecord(t, incidentId, lifecycle + [e], e.recordedAt)
    ensures Statuses(lifecycle + [e]) == Statuses(lifecycle) + [e.status]
  {
    hide LifecycleId, Written, HasId, Extends;
    OnRecordPersists(s, t, incidentId, lifecycle, now, now);
  }

  lemma OtherCollectionTyped(s: Store, n: Names, w: Write)
    requires Typed(s, n) && w.collection != n.grants && w.collection != n.outbox
    ensures Typed(CreateAll(s, [w]), n) && Extends(s, CreateAll(s, [w]))
  {
    CreatePreservesTyped(s, n, [w]);
    CreateAllCases(s, [w]);
  }

  lemma CreatedIsTaken(s: Store, w: Write)
    ensures HasId(Written(CreateAll(s, [w]), w.collection), w.id)
  {
    CreateAllCases(s, [w]);
    if Taken(s, w) {
      assert w in [w];
    } else {
      BatchAppends(s, [w]);
      assert [w][..0] == [];
      assert Tail([w], w.collection) == Put(Tail([w][..0], w.collection), w.id, w.doc) == [Entry(w.id, w.doc)];
      HasIdConcat(Written(s, w.collection), [Entry(w.id, w.doc)], w.id);
      assert [Entry(w.id, w.doc)][0].id == w.id;
    }
  }

  lemma TouchedBy(s: Store, w: Write)
    ensures OnlyTouched(s, CreateAll(s, [w]), w.collection)
  {
    OneCreate(s, w);
  }

  lemma Untouched(s: Store, collection: string)
    ensures OnlyTouched(s, s, collection)
  {
  }

  lemma TouchedTwice(s: Store, t: Store, u: Store, collection: string)
    requires OnlyTouched(s, t, collection) && OnlyTouched(t, u, collection)
    ensures OnlyTouched(s, u, collection)
  {
  }

  /** Writing lifecycle events and directives changes no answer about works or grants. */
  lemma SameAnswers(s: Store, t: Store, workId: string, principal: string, at: Instant)
    requires OnlyTouched(s, t, INCIDENTS) && Typed(s, Namespaced("")) && Typed(t, Namespaced(""))
    ensures DeclaredPolicy(t, workId) == DeclaredPolicy(s, workId)
    ensures ActiveThen(t, workId, principal, at) == ActiveThen(s, workId, principal, at)
  {
    NamesFree();
    assert |"works"| == 5 && |"incidents"| == 9;
    hide Typed, OfWork, ActiveGrants, Written;
    SameQuery(s, t, INCIDENTS, "works", map["work_id" := workId]);
    SameQuery(s, t, INCIDENTS, "grants", map["work_id" := workId, "counterparty_id" := principal]);
  }

  lemma SameQuery(s: Store, t: Store, touched: string, collection: string, filters: map<string, string>)
    requires OnlyTouched(s, t, touched) && collection != touched
    ensures Query(t, collection, filters) == Query(s, collection, filters)
  {
  }

  lemma GrantsSame(s: Store, t: Store, collection: string)
    requires OnlyTouched(s, t, collection) && collection in {INCIDENTS, FREEZES}
    ensures SameGrants(s, t)
  {
    NamesFree();
  }

  lemma IncidentsApart(s: Store, t: Store)
    requires OnlyTouched(s, t, FREEZES)
    ensures Written(t, INCIDENTS) == Written(s, INCIDENTS)
  {
    assert |INCIDENTS| == 9 && |FREEZES| == 19;
  }

  lemma GrantsSameTwice(s: Store, t: Store, u: Store)
    requires SameGrants(s, t) && SameGrants(t, u)
    ensures SameGrants(s, u)
  {
  }

  lemma GrantsSelf(s: Store)
    ensures SameGrants(s, s)
  {
  }

  lemma FiltersHold(s: Store, collection: string, filters: map<string, string>, row: Doc)
    ensures row in Query(s, collection, filters) ==> forall k :: k in filters ==> Field(row, k) == Some(filters[k])
  {
  }

  lemma OfWorkSteps(workId: string, events: seq<GrantEvent>, i: nat)
    requires i <= |events|
    ensures i == 0 ==> OfWork(workId, events[..i]) == []
    ensures i < |events| ==>
      OfWork(workId, events[..i + 1]) == OfWork(workId, events[..i]) + if events[i].workId == workId then [events[i]]
        else []
    ensures i == |events| ==> events[..i] == events
  {
    if i < |events| {
      assert events[..i + 1][..i] == events[..i];
    }
  }

  /** The classes an investigation adds. */
  function Answers(granted: bool, forbids: bool, advocate: bool): set<AssertionClass> {
    {if granted then GrantExisted else GrantDidNotExist}
    + (if forbids then {AccessInconsistentWithScope} else {})
    + (if advocate then {AccessDoesNotEstablishTraining} else {})
  }

  lemma AnswersBuilt(base: set<AssertionClass>, granted: bool, forbids: bool, advocate: bool,
                     first: set<AssertionClass>, second: set<AssertionClass>, third: set<AssertionClass>)
    requires first == base + {if granted then GrantExisted else GrantDidNotExist}
    requires second == if forbids then first + {AccessInconsistentWithScope} else first
    requires third == if advocate then second + {AccessDoesNotEstablishTraining} else second
    ensures third == base + Answers(granted, forbids, advocate)
  {
  }

  /**
   * With an observed access, the finding is decided by two facts: was a grant active, and does the work forbid
   * automation.
   */
  lemma OutsideFromAnswers(assertions: seq<Assertion>, granted: bool, forbids: bool, advocate: bool, incidentId: string,
                           decisionId: string, at: Instant)
    requires Classes(assertions) == {ObservedHttpAccess} + Answers(granted, forbids, advocate)
    ensures var d := Adjudicate(assertions, incidentId, decisionId, at);
      && (Established(d, AccessOutsideDeclaredPolicy) <==> !granted || forbids)
      && (Established(d, AccessWithinDeclaredPolicy) <==> granted && !forbids)
  {
    FindingsOf(assertions, incidentId, decisionId, at);
  }

  function AssertionIds(assertions: seq<Assertion>): seq<string> {
    seq(|assertions|, i requires 0 <= i < |assertions| => assertions[i].assertionId)
  }

  function Roles(assertions: seq<Assertion>): set<string> {
    set a | a in assertions :: a.assertedByRole
  }

  lemma Ranks()
    ensures Rank(Observed) == 0 && Rank(Investigating) == 1 && Rank(Adjudicated) == 2
    ensures Rank(Contained) == 3 && Rank(Closed) == 4
    ensures Course(true) == [Observed, Investigating, Adjudicated, Contained, Closed]
    ensures Course(false) == [Observed, Investigating, Adjudicated, Closed]
  {
  }

  lemma NothingOnRecord(s: Store, incidentId: string, now: Instant)
    ensures OnRecord(s, incidentId, [], now)
  {
  }

  lemma NoAssertions(authority: map<string, set<string>>, first: Assertion)
    ensures AllRespected(authority, []) && Classes([] + [first]) == {first.assertionClass}
  {
    var one := [] + [first];
    assert first in one;
    assert Classes([]) == {};
  }

  lemma LastStatus(lifecycle: seq<LifecycleEvent>)
    requires lifecycle != []
    ensures lifecycle[|lifecycle| - 1].status == Statuses(lifecycle)[|lifecycle| - 1]
  {
  }

  lemma DecidedThenSaid(assertions: seq<Assertion>, said: seq<Assertion>, incidentId: string, decisionId: string,
                        at: Instant)
    requires |said| <= 1 && (|said| == 1 ==> said[0].assertionClass == RevocationInitiated)
    ensures DecidedOn(Adjudicate(assertions, incidentId, decisionId, at), incidentId, assertions + said)
  {
    hide Classes, BasisOf, TrainingAnswer, Outside, Within;
    if said == [] {
      assert assertions + said == assertions;
    } else {
      assert (assertions + said)[..|assertions + said| - 1] == assertions;
    }
  }

  /** The manifest is of this incident, this work and this principal. */
  predicate IsAbout(m: Manifest, incidentId: string, workId: string, principal: string) {
    m.incidentId == incidentId && m.workId == workId && m.subjectPrincipal == principal
  }

  lemma AboutIt(m: Manifest)
    ensures IsAbout(m, m.incidentId, m.workId, m.subjectPrincipal)
  {
  }

  lemma NamesFree()
    ensures var n := Namespaced("");
      && n.grants == "grants" && n.outbox == "revocation_outbox" && n.notices == "revocation_notices"
      && INCIDENTS != n.grants && INCIDENTS != n.outbox && INCIDENTS != n.notices
      && FREEZES != n.grants && FREEZES != n.outbox
  {
    assert "" + "grants" == "grants" && "" + "revocation_outbox" == "revocation_outbox"
      && "" + "revocation_notices" == "revocation_notices";
    assert |"incidents"| == 9 && |"negotiation_freezes"| == 19;
    assert |"grants"| == 6 && |"revocation_outbox"| == 17 && |"revocation_notices"| == 18;
  }

  /**
   * What a closed run leaves: its course on record, containment in it exactly when outside, the freeze and the
   * revocation operation named in the manifest exactly then, and the freeze and the manifest stored.
   */
  ghost predicate LeftOnRecord(s: Store, incidentId: string, r: Ending, now: Instant)
    requires r.ClosedWith?
  {
    var outside := Established(r.result.manifest.decision, AccessOutsideDeclaredPolicy);
    && Statuses(r.lifecycle) == Course(outside) && OnRecord(s, incidentId, r.lifecycle, now)
    && r.result.manifest.freezeId == (if outside then Some("freeze-" + incidentId) else None)
    && (outside ==> HasId(Written(s, FREEZES), "freeze-" + incidentId))
    && r.result.manifest.revocationOperationId
      == (if outside && r.active != [] then Some("incident-" + incidentId) else None)
    && HasId(Written(s, INCIDENTS), incidentId + ":manifest")
  }

  lemma MakeLeftOnRecord(s: Store, incidentId: string, r: Ending, now: Instant, outside: bool)
    requires r.ClosedWith? && (outside <==> Established(r.result.manifest.decision, AccessOutsideDeclaredPolicy))
    requires Statuses(r.lifecycle) == Course(outside) && OnRecord(s, incidentId, r.lifecycle, now)
    requires r.result.manifest.freezeId == if outside then Some("freeze-" + incidentId) else None
    requires outside ==> HasId(Written(s, FREEZES), "freeze-" + incidentId)
    requires r.result.manifest.revocationOperationId
      == if outside && r.active != [] then Some("incident-" + incidentId) else None
    requires HasId(Written(s, INCIDENTS), incidentId + ":manifest")
    ensures LeftOnRecord(s, incidentId, r, now)
  {
    hide Course, OnRecord, Established, HasId;
  }

  // ------------------------------------------------------------------
  // What a run needs in order to close
  // ------------------------------------------------------------------

  /** None of the ids of the incident's course, from the given place on, is taken. */
  ghost predicate Untold(s: Store, incidentId: string, from: nat) {
    && (forall x: Status :: from <= Rank(x) ==> !HasId(Written(s, INCIDENTS), LifecycleId(incidentId, Rank(x), x)))
    && !HasId(Written(s, INCIDENTS), LifecycleId(incidentId, 3, Closed))
    && !HasId(Written(s, INCIDENTS), incidentId + ":manifest")
  }

  lemma OneDigit(n: nat)
    requires n < 10
    ensures |Decimal(n)| == 1
  {
  }

  lemma PlacesApart(incidentId: string, m: nat, a: Status, n: nat, b: Status)
    requires m < n < 10
    ensures LifecycleId(incidentId, m, a) != LifecycleId(incidentId, n, b)
  {
    var at := |incidentId| + 2;
    OneDigit(m);
    OneDigit(n);
    assert LifecycleId(incidentId, m, a)[at] == Decimal(m)[0] && LifecycleId(incidentId, n, b)[at] == Decimal(n)[0];
    assert Decimal(m) != Decimal(n) by {
      if Decimal(m) == Decimal(n) {
        DecimalInjective(m, n);
      }
    }
  }

  lemma PlaceIsNoManifest(incidentId: string, n: nat, a: Status)
    ensures LifecycleId(incidentId, n, a) != incidentId + ":manifest"
  {
    var at := |incidentId| + 1;
    assert LifecycleId(incidentId, n, a)[at] == if n < 10 then '0' else Decimal(n)[0];
    assert (incidentId + ":manifest")[at] == 'm';
  }

  /** Telling one more place leaves the later ones untold. */
  lemma StillUntold(s: Store, t: Store, incidentId: string, n: nat, a: Status)
    requires Untold(s, incidentId, n) && Gained(s, t, INCIDENTS, LifecycleId(incidentId, n, a)) && n < 3
    ensures Untold(t, incidentId, n + 1)
  {
    hide LifecycleId, HasId, Written;
    PlaceIsNoManifest(incidentId, n, a);
    PlacesApart(incidentId, n, a, 3, Closed);
    forall x: Status | n + 1 <= Rank(x) ensures LifecycleId(incidentId, n, a) != LifecycleId(incidentId, Rank(x), x) {
      PlacesApart(incidentId, n, a, Rank(x), x);
    }
  }

  /** The ids of the manifest and of the closing event, at its place, are free. */
  ghost predicate Closable(s: Store, incidentId: string, n: nat) {
    !HasId(Written(s, INCIDENTS), incidentId + ":manifest")
    && !HasId(Written(s, INCIDENTS), LifecycleId(incidentId, n, Closed))
  }

  lemma UntoldIsClosable(s: Store, incidentId: string)
    requires Untold(s, incidentId, 3)
    ensures Closable(s, incidentId, 3) && !HasId(Written(s, INCIDENTS), LifecycleId(incidentId, 3, Contained))
  {
    hide LifecycleId, HasId, Written;
    assert Rank(Contained) == 3;
  }

  lemma ContainedIsClosable(s: Store, t: Store, incidentId: string)
    requires Untold(s, incidentId, 3) && Gained(s, t, INCIDENTS, LifecycleId(incidentId, 3, Contained))
    ensures Closable(t, incidentId, 4)
  {
    hide LifecycleId, HasId, Written;
    PlaceIsNoManifest(incidentId, 3, Contained);
    PlacesApart(incidentId, 3, Contained, 4, Closed);
    assert Rank(Closed) == 4;
  }

  lemma ClosableMeans(s: Store, incidentId: string, n: nat)
    requires Closable(s, incidentId, n)
    ensures !HasId(Written(s, INCIDENTS), incidentId + ":manifest")
    ensures !HasId(Written(s, INCIDENTS), LifecycleId(incidentId, n, Closed))
  {
  }

  lemma UntoldNext(s: Store, incidentId: string, x: Status)
    requires Untold(s, incidentId, Rank(x))
    ensures !HasId(Written(s, INCIDENTS), LifecycleId(incidentId, Rank(x), x))
  {
    hide LifecycleId, HasId, Written;
  }

  lemma SameIncidents(s: Store, t: Store, incidentId: string, n: nat)
    requires Untold(s, incidentId, n) && Written(t, INCIDENTS) == Written(s, INCIDENTS)
    ensures Untold(t, incidentId, n)
  {
    hide LifecycleId, HasId, Written;
  }

  lemma RulingKeepsItsId(assertions: seq<Assertion>, incidentId: string, decisionId: string, at: Instant)
    ensures Adjudicate(assertions, incidentId, decisionId, at).decisionId == decisionId
  {
    hide BasisOf, TrainingAnswer, Outside, Within;
  }

  lemma ContainmentReads(incidentId: string)
    ensures OptionReads(None)
    ensures OptionReads(Some("freeze-" + incidentId)) && OptionReads(Some("incident-" + incidentId))
  {
    assert ("freeze-" + incidentId)[0] == 'f' && ("incident-" + incidentId)[0] == 'i';
    WordReads("freeze-" + incidentId);
    WordReads("incident-" + incidentId);
    hide T.Parses;
  }

  /** The first stored row of the work declares one of the two policies that forbid automated access. */
  ghost predicate FirstWorkForbids(s: Store, workId: string) {
    var rows := Query(s, "works", map["work_id" := workId]);
    rows != [] && (Field(rows[0], "declared_access_policy") == Some("human_reference_only")
                   || Field(rows[0], "declared_access_policy") == Some("no_automated_ingestion"))
  }

  lemma ForbiddenByTheFirstWork(s: Store, workId: string)
    ensures ForbidsAutomation(DeclaredPolicy(s, workId)) <==> FirstWorkForbids(s, workId)
  {
    hide Query, Field;
  }

  /** The grants of the principal on the work whose latest event by then is a grant, each by that event. */
  lemma ActiveThenIff(s: Store, workId: string, principal: string, at: Instant, e: GrantEvent)
    requires Typed(s, Namespaced("")) && UniqueIds(View(Namespaced(""), s, workId, principal))
    ensures e in ActiveThen(s, workId, principal, at) <==>
      && e.kind == Granted && e.workId == workId
      && IsLast(View(Namespaced(""), s, workId, principal), e.grantId, Some(at), e)
  {
    hide UniqueIds, View, Typed, ActiveGrants, IsLast, ByGrantId;
    ActiveGrantsProjectTheFold(View(Namespaced(""), s, workId, principal), Some(at));
    OfWorkMembers(workId, ActiveGrants(View(Namespaced(""), s, workId, principal), Some(at)), e);
  }

  lemma {:induction false} OfWorkMembers(workId: string, events: seq<GrantEvent>, e: GrantEvent)
    ensures e in OfWork(workId, events) <==> e in events && e.workId == workId
  {
    if events != [] {
      OfWorkMembers(workId, events[..|events| - 1], e);
      assert events == events[..|events| - 1] + [events[|events| - 1]];
    }
  }

  /**
   * A closed run rests on the stored access record, on the grants active when it was observed, and on the policy the
   * work declares: outside exactly when no grant was active or the policy forbids automation, within exactly otherwise.
   */
  ghost predicate RestsOn(parse: string -> Option<Instant>, s: Store, recordId: string, workId: string,
                          principal: string, r: Ending)
    requires r.ClosedWith?
  {
    && Typed(s, Namespaced("")) && |r.result.observations| == 1
    && Records(parse, s, recordId, workId, r.result.observations[0])
    && r.active == ActiveThen(s, workId, principal, r.result.observations[0].observedAt)
    && var forbids := FirstWorkForbids(s, workId);
       && (Established(r.result.manifest.decision, AccessOutsideDeclaredPolicy) <==> r.active == [] || forbids)
       && (Established(r.result.manifest.decision, AccessWithinDeclaredPolicy) <==> r.active != [] && !forbids)
  }

  lemma MakeRestsOn(parse: string -> Option<Instant>, s: Store, recordId: string, workId: string, principal: string,
                    r: Ending, o: Observation, forbids: bool)
    requires r.ClosedWith? && Typed(s, Namespaced("")) && r.result.observations == [o]
    requires Records(parse, s, recordId, workId, o) && r.active == ActiveThen(s, workId, principal, o.observedAt)
    requires forbids <==> ForbidsAutomation(DeclaredPolicy(s, workId))
    requires Established(r.result.manifest.decision, AccessOutsideDeclaredPolicy) <==> r.active == [] || forbids
    requires Established(r.result.manifest.decision, AccessWithinDeclaredPolicy) <==> r.active != [] && !forbids
    ensures RestsOn(parse, s, recordId, workId, principal, r)
  {
    hide Typed, Records, ActiveThen, DeclaredPolicy, ForbidsAutomation, Established, FirstWorkForbids;
    ForbiddenByTheFirstWork(s, workId);
  }

  lemma RecordsOnce(parse: string -> Option<Instant>, s: Store, recordId: string, workId: string, o: Observation,
                    q: Observation)
    requires Records(parse, s, recordId, workId, o) && Records(parse, s, recordId, workId, q)
    ensures o == q
  {
    hide Query, Field;
  }

  lemma RolesAndIdsRead(x: Subject, assertions: seq<Assertion>)
    requires AllInVoice(x, assertions)
    ensures AllRead(Text.Sorted(Roles(assertions) + {"consent_arbiter"})) && AllRead(AssertionIds(assertions))
  {
    hide Text.Ascending, AllInVoice, AllRead;
    NamesRead(x, assertions, Text.Sorted(Roles(assertions) + {"consent_arbiter"}), AssertionIds(assertions));
  }

  lemma ConstantsRead()
    ensures T.Parses(BASIS) && T.Parses("none")
  {
    assert BASIS[0] == 'f';
    WordReads(BASIS);
    WordReads("none");
    hide *;
  }

  class IncidentEngine {
    const gateway: AgentGateway
    const propagator: RevocationPropagator
    const accounts: Accounts
    const authority: map<string, set<string>>
    const crypto: Crypto
    const signer: Option<Signer>
    const parse: string -> Option<Instant>

    constructor (gateway: AgentGateway, propagator: RevocationPropagator, accounts: Accounts,
                 authority: map<string, set<string>>, crypto: Crypto, signer: Option<Signer>,
                 parse: string -> Option<Instant>)
      ensures this.gateway == gateway && this.propagator == propagator && this.accounts == accounts
      ensures this.authority == authority
      ensures this.crypto == crypto && this.signer == signer && this.parse == parse
    {
      this.gateway := gateway;
      this.propagator := propagator;
      this.accounts := accounts;
      this.authority := authority;
      this.crypto := crypto;
      this.signer := signer;
      this.parse := parse;
    }

    /** The engine, its propagator and their store belong together, and the store is typed. */
    ghost predicate Ready()
      reads gateway`store
    {
      propagator.gateway == gateway && propagator.ns == "" && PartialOrder(propagator.order)
        && Typed(gateway.store, Namespaced(""))
    }

    /** The arbiter's unleased writes pass: no ledger is attached, and the policy lets it have the collection. */
    ghost predicate ArbiterWrites(collection: string) {
      gateway.ledger == null && Reads(accounts.arbiter, "consent_arbiter", collection)
    }

    ghost predicate Reads(sa: string, role: string, collection: string) {
      Reaches(gateway.policy, gateway.strict, sa, role, collection)
    }

    /** The policy lets the negotiator have the principal's grants inside the principal's session. */
    ghost predicate NegotiatorReads(workId: string, principal: string) {
      Access(gateway.policy, gateway.strict, None, accounts.negotiator, "licensing_negotiator", "grants",
             map["counterparty_id" := principal, "work_id" := workId], map["counterparty_id" := principal]).Allowed?
    }

    lemma ArbiterWriteIff(w: Write, now: Instant)
      ensures ArbiterWrites(w.collection) <==>
        && Access(gateway.policy, gateway.strict, None, accounts.arbiter, "consent_arbiter", w.collection, map[],
                  map[]).Allowed?
        && LeaseCheck(gateway.LedgerEvents(), accounts.arbiter, "consent_arbiter", w.collection, None, now).Done?
      ensures Taken(gateway.store, w) <==> HasId(Written(gateway.store, w.collection), w.id)
    {
      UnleasedIff(gateway.LedgerEvents(), accounts.arbiter, "consent_arbiter", w.collection, now);
      hide Access, LeaseCheck;
    }

    lemma ReadIff(sa: string, role: string, collection: string, filters: map<string, string>)
      ensures Reads(sa, role, collection) <==>
        Access(gateway.policy, gateway.strict, None, sa, role, collection, filters, map[]).Allowed?
    {
      FiltersDoNotMatter(gateway.policy, gateway.strict, sa, role, collection, filters);
      hide Access;
    }

    /** Appends one lifecycle event, if it moves forward. */
    method Transition(incidentId: string, lifecycle: seq<LifecycleEvent>, status: Status, clock: Clock)
      returns (r: Moved)
      requires Ready() && OnRecord(gateway.store, incidentId, lifecycle, clock.now)
      modifies gateway`denials, gateway`store, clock
      ensures Ready() && Extends(old(gateway.store), gateway.store) && old(clock.now) <= clock.now
      ensures OnlyTouched(old(gateway.store), gateway.store, INCIDENTS)
      ensures r.Illegal? <==> lifecycle != [] && Rank(status) <= Rank(lifecycle[|lifecycle| - 1].status)
      ensures r.MovedTo? ==> OnRecord(gateway.store, incidentId, r.lifecycle, clock.now)
      ensures r.MovedTo? ==> Statuses(r.lifecycle) == Statuses(lifecycle) + [status]
      ensures r.MovedTo? <==>
        && !r.Illegal? && ArbiterWrites(INCIDENTS)
        && !HasId(Written(old(gateway.store), INCIDENTS), LifecycleId(incidentId, |lifecycle|, status))
      ensures r.MovedTo? ==>
        Gained(old(gateway.store), gateway.store, INCIDENTS, LifecycleId(incidentId, |lifecycle|, status))
    {
      hide *;
      ExtendsReflexive(gateway.store);
      Untouched(gateway.store, INCIDENTS);
      if lifecycle != [] {
        var prev := Rank(lifecycle[|lifecycle| - 1].status);
        if Rank(status) <= prev {
          return Illegal;
        }
      }
      var now := clock.Read();
      var event := LifecycleEvent(LifecycleId(incidentId, |lifecycle|, status), incidentId, status, now);
      var doc := Record(map["event_id" := event.eventId, "incident_id" := incidentId, "status" := StatusName(status)]);
      var leaseNow := clock.Read();
      var w := Write(INCIDENTS, event.eventId, doc);
      NamesFree();
      Unready();
      OtherCollectionTyped(gateway.store, Namespaced(""), w);
      CreatedIsTaken(gateway.store, w);
      CreatedGains(gateway.store, w);
      ArbiterWriteIff(w, leaseNow);
      TouchedBy(gateway.store, w);
      ghost var before := gateway.store;
      var out :=
        gateway.WriteDocument(accounts.arbiter, "consent_arbiter", INCIDENTS, event.eventId, doc, None, None, leaseNow);
      MakeReady();
      if !out.Done? {
        return Raised;
      }
      OnRecordGrows(before, gateway.store, incidentId, lifecycle, old(clock.now), event);
      ExtendsReflexive(gateway.store);
      OnRecordPersists(gateway.store, gateway.store, incidentId, lifecycle + [event], now, clock.now);
      r := MovedTo(lifecycle + [event]);
    }

    lemma Unready()
      requires Ready()
      ensures propagator.gateway == gateway && propagator.ns == "" && PartialOrder(propagator.order)
      ensures Typed(gateway.store, Namespaced(""))
    {
    }

    lemma ReadyIsTyped()
      requires Ready()
      ensures Typed(gateway.store, Namespaced(""))
    {
    }

    lemma MakeReady()
      requires propagator.gateway == gateway && propagator.ns == "" && PartialOrder(propagator.order)
      requires Typed(gateway.store, Namespaced(""))
      ensures Ready()
    {
    }

    /** One assertion through the epistemic gate. */
    method Submit(sa: string, a: Assertion, assertions: seq<Assertion>) returns (ok: bool, more: seq<Assertion>)
      requires AllRespected(authority, assertions)
      modifies gateway`denials
      ensures ok <==> Respected(authority, a)
      ensures more == (if ok then assertions + [a] else assertions) && AllRespected(authority, more)
    {
      var out := gateway.SubmitAssertion(authority, sa, a.assertedByRole, ClassName(a.assertionClass));
      ok := out.Done?;
      more := if ok then assertions + [a] else assertions;
    }

    /** The evidence agent reads the access record in its own domain. */
    method ReadObservation(recordId: string, workId: string) returns (r: Option<Reading>)
      modifies gateway`denials
      ensures r.Some? && r.value.Seen? ==> Records(parse, gateway.store, recordId, workId, r.value.observation)
      ensures r.Some? ==>
        (r.value.Absent? <==> Query(gateway.store, "crawler_access", map["record_id" := recordId]) == [])
      ensures r.Some? <==> Reads(accounts.evidence, "evidence_agent", "crawler_access")
      ensures r.Some? ==>
        (r.value.Seen? <==> exists o :: Records(parse, gateway.store, recordId, workId, o))
    {
      hide *;
      var filters := map["record_id" := recordId];
      ReadIff(accounts.evidence, "evidence_agent", "crawler_access", filters);
      RecordedMeans(recordId, workId);
      var read := gateway.ReadCollection(accounts.evidence, "evidence_agent", "crawler_access", filters, map[], None);
      if !read.Done? {
        return None;
      }
      if read.value == [] {
        return Some(Absent);
      }
      var row := read.value[0];
      FiltersHold(gateway.store, "crawler_access", filters, row);
      var agent, path, observedAt := Field(row, "user_agent"), Field(row, "path"), Field(row, "observed_at");
      if agent.None? || path.None? || observedAt.None? {
        return Some(Unreadable);
      }
      var at := parse(observedAt.value);
      if at.None? {
        return Some(Unreadable);
      }
      var detail := Field(row, "detail");
      var observation := Observation(Field(row, "record_id").value, workId, agent.value, path.value, at.value,
                                     if detail.Some? then detail.value else "");
      AsRecorded(recordId, workId, observation);
      return Some(Seen(observation));
    }

    lemma RecordedMeans(recordId: string, workId: string)
      ensures var rows := Query(gateway.store, "crawler_access", map["record_id" := recordId]);
        forall o :: Records(parse, gateway.store, recordId, workId, o) ==>
          && rows != [] && Field(rows[0], "user_agent").Some? && Field(rows[0], "path").Some?
          && Field(rows[0], "observed_at").Some? && parse(Field(rows[0], "observed_at").value).Some?
    {
      hide Query, Field;
    }

    lemma AsRecorded(recordId: string, workId: string, o: Observation)
      requires var rows := Query(gateway.store, "crawler_access", map["record_id" := recordId]);
        && rows != [] && o.observationId == recordId && o.workId == workId
        && Field(rows[0], "user_agent") == Some(o.declaredUserAgent) && Field(rows[0], "path") == Some(o.path)
        && Field(rows[0], "observed_at").Some? && parse(Field(rows[0], "observed_at").value) == Some(o.observedAt)
        && o.detail == (if Field(rows[0], "detail").Some? then Field(rows[0], "detail").value else "")
      ensures Records(parse, gateway.store, recordId, workId, o)
    {
    }

    /** The negotiator's own question, inside its session wall: which grants of this principal were active then? */
    method ActiveAt(workId: string, principal: string, at: Instant) returns (ok: bool, active: seq<GrantEvent>)
      requires Ready()
      modifies gateway`denials
      ensures Ready() && Typed(gateway.store, Namespaced(""))
      ensures (ok ==> active == ActiveThen(gateway.store, workId, principal, at))
      ensures ok <==> NegotiatorReads(workId, principal)
    {
      hide *;
      NegotiatorReadsIff(workId, principal);
      var filters := map["counterparty_id" := principal, "work_id" := workId];
      ViewIsTyped(workId, principal);
      var read :=
        gateway.ReadCollection(accounts.negotiator, "licensing_negotiator", "grants", filters,
                               map["counterparty_id" := principal], None);
      if !read.Done? {
        return false, [];
      }
      var events := EventsOf(read.value);
      var grants := ActiveGrantEvents(events, Some(at));
      active := [];
      OfWorkSteps(workId, grants, 0);
      for i := 0 to |grants|
        invariant active == OfWork(workId, grants[..i])
      {
        OfWorkSteps(workId, grants, i);
        if grants[i].workId == workId {
          active := active + [grants[i]];
        }
      }
      OfWorkSteps(workId, grants, |grants|);
      ActiveThenIs(gateway.store, workId, principal, at);
      ok := true;
    }

    lemma NegotiatorReadsIff(workId: string, principal: string)
      ensures NegotiatorReads(workId, principal) <==>
        Access(gateway.policy, gateway.strict, None, accounts.negotiator, "licensing_negotiator", "grants",
               map["counterparty_id" := principal, "work_id" := workId], map["counterparty_id" := principal]).Allowed?
    {
      hide Access;
    }

    lemma ViewIsTyped(workId: string, principal: string)
      requires Ready()
      ensures Typed(gateway.store, Namespaced(""))
      ensures var docs := Query(gateway.store, "grants", map["counterparty_id" := principal, "work_id" := workId]);
        && (forall d :: d in docs ==> d.GrantDoc?)
        && EventsOf(docs) == View(Namespaced(""), gateway.store, workId, principal)
    {
      hide Satisfies, Select, PartialOrder;
      NamesFree();
      assert map["counterparty_id" := principal, "work_id" := workId]
        == map["work_id" := workId, "counterparty_id" := principal];
      AllTyped(Namespaced(""), gateway.store, map["counterparty_id" := principal, "work_id" := workId]);
    }

    /** The custodian's read: what the work itself declares. */
    method Declaration(workId: string) returns (ok: bool, declared: Option<string>)
      modifies gateway`denials
      ensures ok ==> declared == DeclaredPolicy(gateway.store, workId)
      ensures ok <==> Reads(accounts.custodian, "rights_custodian", "works")
    {
      hide *;
      ReadIff(accounts.custodian, "rights_custodian", "works", map["work_id" := workId]);
      var read :=
        gateway.ReadCollection(accounts.custodian, "rights_custodian", "works", map["work_id" := workId], map[], None);
      if !read.Done? {
        return false, None;
      }
      DeclaredIn(gateway.store, workId);
      ok, declared := true, if read.value == [] then None else Field(read.value[0], "declared_access_policy");
    }

    /** The custodian speaks only if the work's own policy forbids automation. */
    method AskCustodian(incidentId: string, workId: string, principal: string, before: seq<Assertion>)
      returns (ok: bool, assertions: seq<Assertion>, forbids: bool)
      requires AllRespected(authority, before)
      modifies gateway`denials
      ensures AllRespected(authority, assertions)
      ensures ok ==>
        Classes(assertions) == if forbids then Classes(before) + {AccessInconsistentWithScope} else Classes(before)
      ensures ok ==> (forbids <==> ForbidsAutomation(DeclaredPolicy(gateway.store, workId)))
      ensures var x := Subject(incidentId, workId, principal);
        AllInVoice(x, before) ==> AllInVoice(x, assertions)
      ensures Entitled(authority) && Reads(accounts.custodian, "rights_custodian", "works") ==> ok
    {
      hide *;
      forbids, assertions := false, before;
      var declared;
      ok, declared := Declaration(workId);
      if !ok {
        return;
      }
      ForbiddenIsDeclared(declared);
      if ForbidsAutomation(declared) {
        forbids := true;
        var scope :=
          Assertion(SaidAs(incidentId, AccessInconsistentWithScope), AccessInconsistentWithScope,
                    Voice(AccessInconsistentWithScope), workId, principal, declared.value);
        MakeInVoice(Subject(incidentId, workId, principal), AccessInconsistentWithScope, declared.value);
        OneMoreVoice(authority, Subject(incidentId, workId, principal), before, scope);
        ok, assertions := Submit(accounts.custodian, scope, before);
      }
    }

    /**
     * Three walls answer: the negotiator whether a grant was active, the custodian whether the work's own policy
     * forbids automation, the advocate, if it takes part, what an access does not establish.
     */
    method Investigate(incidentId: string, workId: string, principal: string, includeAdvocate: bool,
                       active: seq<GrantEvent>, before: seq<Assertion>)
      returns (ok: bool, assertions: seq<Assertion>, forbids: bool)
      requires AllRespected(authority, before)
      modifies gateway`denials
      ensures AllRespected(authority, assertions)
      ensures ok ==> Classes(assertions) == Classes(before) + Answers(active != [], forbids, includeAdvocate)
      ensures ok ==> (forbids <==> ForbidsAutomation(DeclaredPolicy(gateway.store, workId)))
      ensures var x := Subject(incidentId, workId, principal);
        AllInVoice(x, before) ==> AllInVoice(x, assertions)
      ensures Entitled(authority) && Reads(accounts.custodian, "rights_custodian", "works") ==> ok
    {
      hide *;
      forbids := false;
      var basis := if active == [] then NO_GRANT else SOME_GRANTS;
      var said := if active != [] then GrantExisted else GrantDidNotExist;
      var grant := Assertion(SaidAs(incidentId, said), said, Voice(said), workId, principal, basis);
      ghost var x := Subject(incidentId, workId, principal);
      MakeInVoice(x, said, basis);
      OneMoreVoice(authority, x, before, grant);
      ok, assertions := Submit(accounts.negotiator, grant, before);
      if !ok {
        return;
      }
      ghost var first := Classes(assertions);
      ok, assertions, forbids := AskCustodian(incidentId, workId, principal, assertions);
      if !ok {
        return;
      }
      ghost var second := Classes(assertions);
      if includeAdvocate {
        var limit :=
          Assertion(SaidAs(incidentId, AccessDoesNotEstablishTraining), AccessDoesNotEstablishTraining,
                    Voice(AccessDoesNotEstablishTraining), workId, principal, LIMIT);
        MakeInVoice(x, AccessDoesNotEstablishTraining, LIMIT);
        OneMoreVoice(authority, x, assertions, limit);
        ok, assertions := Submit(ADVOCATE, limit, assertions);
      }
      if ok {
        AnswersBuilt(Classes(before), active != [], forbids, includeAdvocate, first, second, Classes(assertions));
      }
    }

    /** Terminations pass: no ledger is attached, and the policy clears the propagator. */
    ghost predicate Terminates() {
      gateway.ledger == null && propagator.IsCleared()
    }

    lemma TerminatesIff()
      ensures Terminates() <==> gateway.ledger == null && propagator.IsCleared()
    {
    }

    lemma ConfigNames(workId: string, useType: string, operationId: string)
      ensures propagator.ConfigFor(workId, useType, operationId).names == Namespaced(propagator.ns)
    {
    }

    /** The propagator's verb: terminate through the cascade under the incident's own operation id, then say so. */
    method Terminate(incidentId: string, workId: string, principal: string, useType: string, before: seq<Assertion>,
                     newId: string, clock: Clock, draft: string -> string)
      returns (ok: bool, assertions: seq<Assertion>, ghost said: Assertion, ghost k: Termination)
      requires Ready() && AllRespected(authority, before)
      modifies gateway`denials, gateway`store, clock
      ensures Ready() && Extends(old(gateway.store), gateway.store) && old(clock.now) <= clock.now
      ensures AllRespected(authority, assertions)
      ensures ok ==> said.assertionClass == RevocationInitiated && assertions == before + [said]
      ensures k.c == propagator.ConfigFor(workId, useType, "incident-" + incidentId) && k.before == old(gateway.store)
      ensures k.after == gateway.store
      ensures ok ==> old(clock.now) < k.at && k.end == clock.now && CarriedOut(k, draft)
      ensures var x := Subject(incidentId, workId, principal);
        AllInVoice(x, before) ==> AllInVoice(x, assertions)
      ensures ok ==> Written(gateway.store, INCIDENTS) == Written(old(gateway.store), INCIDENTS)
      ensures Entitled(authority) && Terminates() ==> ok
    {
      hide *;
      TerminatesIff();
      Unready();
      NamesFree();
      NotEmpty("incident-", incidentId);
      var requested := Some("incident-" + incidentId);
      var cascade, at, drafts :=
        propagator.ExecuteRevocationCascade(workId, useType, requested, newId, None, clock, draft);
      ClearedWillPass(propagator, old(clock.now), clock.now);
      MakeReady();
      var operation := if cascade.Done? then cascade.value.operationId else "";
      var a := Assertion(SaidAs(incidentId, RevocationInitiated), RevocationInitiated, Voice(RevocationInitiated),
                         workId, principal, "cascade operation " + operation);
      said := a;
      k := Termination(propagator.ConfigFor(workId, useType, "incident-" + incidentId), old(gateway.store),
                       gateway.store, at, clock.now, drafts, NoResult());
      if !cascade.Done? {
        ok, assertions := false, before;
        return;
      }
      k := k.(result := cascade.value);
      MakeCarried(k, draft);
      ConfigNames(workId, useType, "incident-" + incidentId);
      CascadeKeepsOthers(k.c, k.before, k.after, k.at, k.drafts, k.result, INCIDENTS);
      MakeInVoice(Subject(incidentId, workId, principal), RevocationInitiated, a.basis);
      OneMoreVoice(authority, Subject(incidentId, workId, principal), before, a);
      ok, assertions := Submit(accounts.propagator, a, before);
    }

    /** Freeze pending negotiation; terminate what is active. */
    method Contain(incidentId: string, workId: string, principal: string, active: seq<GrantEvent>,
                   before: seq<Assertion>, newId: string, clock: Clock, draft: string -> string)
      returns (ok: bool, assertions: seq<Assertion>, operation: Option<string>, ghost said: seq<Assertion>,
               ghost k: Option<Termination>)
      requires Ready() && AllRespected(authority, before)
      modifies gateway`denials, gateway`store, clock
      ensures Ready() && Extends(old(gateway.store), gateway.store) && old(clock.now) <= clock.now
      ensures AllRespected(authority, assertions)
      ensures ok ==> HasId(Written(gateway.store, FREEZES), "freeze-" + incidentId)
      ensures ok ==> operation == (if active == [] then None else Some("incident-" + incidentId))
      ensures ok ==> assertions == before + said && |said| == (if active == [] then 0 else 1)
      ensures ok && active != [] ==> said[0].assertionClass == RevocationInitiated
      ensures ok ==> GrantsMovedBy(old(gateway.store), gateway.store, k, draft) && (k.Some? <==> active != [])
      ensures ok && k.Some? ==>
        && k.value.c == propagator.ConfigFor(workId, active[0].scope.useType, "incident-" + incidentId)
        && old(clock.now) < k.value.at && k.value.end == clock.now
      ensures var x := Subject(incidentId, workId, principal);
        AllInVoice(x, before) ==> AllInVoice(x, assertions)
      ensures ok ==> Written(gateway.store, INCIDENTS) == Written(old(gateway.store), INCIDENTS)
      ensures ArbiterWrites(FREEZES) && (active != [] ==> Entitled(authority) && Terminates()) ==> ok
    {
      hide *;
      ok, assertions, operation, said, k := false, before, None, [], None;
      var now := clock.Read();
      var freezeId := "freeze-" + incidentId;
      var doc := Record(map["freeze_id" := freezeId, "counterparty_id" := principal, "incident_id" := incidentId]);
      var frozen := Freeze(freezeId, doc, now);
      if !frozen {
        return;
      }
      ghost var mid := gateway.store;
      IncidentsApart(old(gateway.store), mid);
      GrantsSame(old(gateway.store), mid, FREEZES);
      NothingContained(old(gateway.store), mid, draft);
      ExtendsReflexive(gateway.store);
      if active != [] {
        ghost var a, x;
        var useType := active[0].scope.useType;
        ok, assertions, a, x := Terminate(incidentId, workId, principal, useType, before, newId, clock, draft);
        ExtendsTransitive(old(gateway.store), mid, gateway.store);
        if !ok {
          return;
        }
        said, k := [a], Some(x);
        OneContained(old(gateway.store), x, draft);
        operation := Some("incident-" + incidentId);
      }
      StillHas(mid, gateway.store, FREEZES, freezeId);
      assert before + [] == before;
      ok := true;
    }

    /** The containment directive; a re-run collides with its own freeze and moves on. */
    method Freeze(freezeId: string, doc: Doc, now: Instant) returns (ok: bool)
      requires Ready()
      modifies gateway`denials, gateway`store
      ensures Ready() && Extends(old(gateway.store), gateway.store)
      ensures ok ==> HasId(Written(gateway.store, FREEZES), freezeId)
      ensures OnlyTouched(old(gateway.store), gateway.store, FREEZES)
      ensures ok <==> ArbiterWrites(FREEZES)
    {
      hide *;
      Unready();
      NamesFree();
      ExtendsReflexive(gateway.store);
      Untouched(gateway.store, FREEZES);
      var w := Write(FREEZES, freezeId, doc);
      TouchedBy(gateway.store, w);
      OtherCollectionTyped(gateway.store, Namespaced(""), w);
      CreatedIsTaken(gateway.store, w);
      ArbiterWriteIff(w, now);
      var out := gateway.WriteDocument(accounts.arbiter, "consent_arbiter", FREEZES, freezeId, doc, None, None, now);
      MakeReady();
      ok := out.Done? || out.AlreadyExists?;
    }

    /** Appends the finished manifest, then the closing event. */
    method StoreAndClose(incidentId: string, lifecycle: seq<LifecycleEvent>, doc: Doc, clock: Clock, now: Instant)
      returns (r: Moved)
      requires Ready() && OnRecord(gateway.store, incidentId, lifecycle, clock.now)
      modifies gateway`denials, gateway`store, clock
      ensures Ready() && Extends(old(gateway.store), gateway.store) && old(clock.now) <= clock.now
      ensures OnlyTouched(old(gateway.store), gateway.store, INCIDENTS)
      ensures r.Illegal? ==> lifecycle != [] && Rank(Closed) <= Rank(lifecycle[|lifecycle| - 1].status)
      ensures r.MovedTo? ==>
        OnRecord(gateway.store, incidentId, r.lifecycle, clock.now)
          && Statuses(r.lifecycle) == Statuses(lifecycle) + [Closed]
      ensures r.MovedTo? ==> HasId(Written(gateway.store, INCIDENTS), incidentId + ":manifest")
      ensures r.MovedTo? <==>
        && ArbiterWrites(INCIDENTS)
        && (lifecycle == [] || Rank(lifecycle[|lifecycle| - 1].status) < Rank(Closed))
        && !HasId(Written(old(gateway.store), INCIDENTS), incidentId + ":manifest")
        && !HasId(Written(old(gateway.store), INCIDENTS), LifecycleId(incidentId, |lifecycle|, Closed))
    {
      hide *;
      ExtendsReflexive(gateway.store);
      Untouched(gateway.store, INCIDENTS);
      PlaceIsNoManifest(incidentId, |lifecycle|, Closed);
      Unready();
      NamesFree();
      var w := Write(INCIDENTS, incidentId + ":manifest", doc);
      TouchedBy(gateway.store, w);
      OtherCollectionTyped(gateway.store, Namespaced(""), w);
      CreatedIsTaken(gateway.store, w);
      CreatedGains(gateway.store, w);
      GainedMeans(gateway.store, CreateAll(gateway.store, [w]), INCIDENTS, w.id);
      ArbiterWriteIff(w, now);
      ghost var before := gateway.store;
      var out := gateway.WriteDocument(accounts.arbiter, "consent_arbiter", INCIDENTS, w.id, doc, None, None, now);
      MakeReady();
      if !out.Done? {
        return Raised;
      }
      ghost var mid := gateway.store;
      OnRecordPersists(before, mid, incidentId, lifecycle, old(clock.now), clock.now);
      r := Transition(incidentId, lifecycle, Closed, clock);
      ExtendsTransitive(before, mid, gateway.store);
      TouchedTwice(before, mid, gateway.store, INCIDENTS);
      StillHas(mid, gateway.store, INCIDENTS, incidentId + ":manifest");
    }

    /** The manifest before it is signed. */
    function Bound(incidentId: string, workId: string, principal: string, observation: Observation,
                   assertions: seq<Assertion>, decision: Decision, freezeId: Option<string>,
                   operation: Option<string>, openedAt: Instant, closedAt: Instant, previous: string): Manifest {
      Manifest(incidentId, workId, principal, [observation],
               map[observation.observationId := crypto.hash(ObservationBytes(observation))],
               crypto.hash(AssertionsBytes(assertions)), decision.policyVersion, BASIS, decision,
               AssertionIds(assertions), Text.Sorted(Roles(assertions) + {"consent_arbiter"}), freezeId, operation,
               openedAt, closedAt, previous, if signer.Some? then signer.value.keyId else "none", "")
    }

    lemma BoundHolds(incidentId: string, workId: string, principal: string, observation: Observation,
                     assertions: seq<Assertion>, decision: Decision, freezeId: Option<string>,
                     operation: Option<string>, openedAt: Instant, closedAt: Instant, previous: string)
      ensures var m := Bound(incidentId, workId, principal, observation, assertions, decision, freezeId, operation,
                             openedAt, closedAt, previous);
        && m.evidenceHashes == map[observation.observationId := crypto.hash(ObservationBytes(observation))]
        && m.assertionsHash == crypto.hash(AssertionsBytes(assertions)) && m.previousEventHash == previous
        && m.decision == decision && m.freezeId == freezeId && m.revocationOperationId == operation
        && m.incidentId == incidentId && m.workId == workId && m.subjectPrincipal == principal
    {
      hide ObservationBytes, AssertionsBytes, Text.Ascending;
    }

    /** What a caller hands in either is a timestamp or does not look like one, and so does every digest. */
    ghost predicate Legible(incidentId: string, decisionId: string, workId: string, principal: string,
                            observation: Observation, previous: string) {
      && T.Parses(incidentId) && T.Parses(decisionId) && T.Parses(workId) && T.Parses(principal)
      && ObservationReads(observation) && T.Parses(previous)
      && (signer.Some? ==> T.Parses(signer.value.keyId)) && DigestsRead(crypto)
    }

    /** What goes into the manifest reads. */
    ghost predicate WillRead(incidentId: string, workId: string, principal: string, observation: Observation,
                             assertions: seq<Assertion>, decision: Decision, freezeId: Option<string>,
                             operation: Option<string>, previous: string) {
      && Legible(incidentId, decision.decisionId, workId, principal, observation, previous)
      && AllInVoice(Subject(incidentId, workId, principal), assertions)
      && OptionReads(freezeId) && OptionReads(operation)
    }

    lemma BoundReads(incidentId: string, workId: string, principal: string, observation: Observation,
                     assertions: seq<Assertion>, decision: Decision, freezeId: Option<string>,
                     operation: Option<string>, openedAt: Instant, closedAt: Instant, previous: string)
      requires DecidedOn(decision, incidentId, assertions)
      requires WillRead(incidentId, workId, principal, observation, assertions, decision, freezeId, operation, previous)
      ensures Signable(Bound(incidentId, workId, principal, observation, assertions, decision, freezeId, operation,
                             openedAt, closedAt, previous))
    {
      var m := Bound(incidentId, workId, principal, observation, assertions, decision, freezeId, operation, openedAt,
                     closedAt, previous);
      hide T.Parses, ObservationBytes, AssertionsBytes, AllRead, AllInVoice, InVoice, DecidedOn, Signable,
           ObservationReads, DecisionReads, Text.Ascending, MapReads, ObservationsRead, OptionReads, DigestsRead,
           BASIS, Roles, AssertionIds, DecisionReads, ManifestReads;
      var x := Subject(incidentId, workId, principal);
      DecidedReads(decision, x, incidentId, assertions);
      DecisionPolicyReads(decision);
      RolesAndIdsRead(x, assertions);
      ConstantsRead();
      EvidenceReads(crypto, observation.observationId, ObservationBytes(observation), AssertionsBytes(assertions));
      OneObservationReads(observation);
      MakeManifestReads(m);
      SignableIff(m);
    }

    /** The terminal record: bind everything, sign, append, and move to closed. */
    method Close(incidentId: string, workId: string, principal: string, observation: Observation,
                 assertions: seq<Assertion>, decision: Decision, freezeId: Option<string>, operation: Option<string>,
                 previous: string, openedAt: Instant, lifecycle: seq<LifecycleEvent>, clock: Clock)
      returns (r: Moved, result: IncidentResult)
      requires Ready() && AllRespected(authority, assertions) && previous != ""
      requires OnRecord(gateway.store, incidentId, lifecycle, clock.now)
      requires DecidedOn(decision, incidentId, assertions)
      modifies gateway`denials, gateway`store, clock
      ensures Ready() && Extends(old(gateway.store), gateway.store) && old(clock.now) <= clock.now
      ensures OnlyTouched(old(gateway.store), gateway.store, INCIDENTS)
      ensures r.Illegal? ==> lifecycle != [] && Rank(Closed) <= Rank(lifecycle[|lifecycle| - 1].status)
      ensures r.MovedTo? ==>
        OnRecord(gateway.store, incidentId, r.lifecycle, clock.now)
          && Statuses(r.lifecycle) == Statuses(lifecycle) + [Closed]
      ensures r.MovedTo? ==> HasId(Written(gateway.store, INCIDENTS), incidentId + ":manifest")
      ensures r.MovedTo? ==> WellRecorded(crypto, authority, signer, result)
      ensures r.MovedTo? <==>
        && Signable(result.manifest) && ArbiterWrites(INCIDENTS)
        && (lifecycle == [] || Rank(lifecycle[|lifecycle| - 1].status) < Rank(Closed))
        && !HasId(Written(old(gateway.store), INCIDENTS), incidentId + ":manifest")
        && !HasId(Written(old(gateway.store), INCIDENTS), LifecycleId(incidentId, |lifecycle|, Closed))
      ensures !Signable(result.manifest) ==> r.Raised? && gateway.store == old(gateway.store)
      ensures WillRead(incidentId, workId, principal, observation, assertions, decision, freezeId, operation, previous)
        ==> Signable(result.manifest)
      ensures result.manifest.decision == decision && result.assertions == assertions
      ensures result.observations == [observation]
      ensures result.manifest.freezeId == freezeId && result.manifest.revocationOperationId == operation
      ensures IsAbout(result.manifest, incidentId, workId, principal)
    {
      hide *;
      var closedAt := clock.Read();
      var unsigned := Bound(incidentId, workId, principal, observation, assertions, decision, freezeId, operation,
                            openedAt, closedAt, previous);
      BoundHolds(incidentId, workId, principal, observation, assertions, decision, freezeId, operation, openedAt,
                 closedAt, previous);
      if WillRead(incidentId, workId, principal, observation, assertions, decision, freezeId, operation, previous) {
        BoundReads(incidentId, workId, principal, observation, assertions, decision, freezeId, operation, openedAt,
                   closedAt, previous);
      }
      ExtendsReflexive(gateway.store);
      Untouched(gateway.store, INCIDENTS);
      PlaceIsNoManifest(incidentId, |lifecycle|, Closed);
      var sealed;
      sealed, result := Seal(unsigned, assertions, observation);
      AboutIt(result.manifest);
      if !sealed {
        return Raised, result;
      }
      var doc := Record(map["incident_id" := incidentId, "manifest_version" := "1"]);
      var now := clock.Read();
      OnRecordPersists(gateway.store, gateway.store, incidentId, lifecycle, old(clock.now), clock.now);
      r := StoreAndClose(incidentId, lifecycle, doc, clock, now);
    }

    /** Signs the finished manifest over its other members; building those bytes may raise. */
    method Seal(unsigned: Manifest, assertions: seq<Assertion>, observation: Observation)
      returns (sealed: bool, result: IncidentResult)
      requires AllRespected(authority, assertions) && DecidedOn(unsigned.decision, unsigned.incidentId, assertions)
      requires unsigned.evidenceHashes
        == map[observation.observationId := crypto.hash(ObservationBytes(observation))]
      requires unsigned.assertionsHash == crypto.hash(AssertionsBytes(assertions))
      requires unsigned.previousEventHash != ""
      ensures sealed <==> Signable(result.manifest)
      ensures sealed <==> Signable(unsigned)
      ensures sealed ==> WellRecorded(crypto, authority, signer, result)
      ensures result == IncidentResult(unsigned.(signature := result.manifest.signature), assertions, [observation])
    {
      hide *;
      sealed := Signable(unsigned);
      if !sealed {
        result := IncidentResult(unsigned, assertions, [observation]);
        return;
      }
      var signature := SignatureFor(signer, "incident_manifest", unsigned.incidentId, ManifestBytes(unsigned));
      result := IncidentResult(unsigned.(signature := signature), assertions, [observation]);
      SignatureChangesNothing(unsigned, signature);
      RecordIsWell(unsigned, result);
    }

    lemma RecordIsWell(unsigned: Manifest, r: IncidentResult)
      requires Signable(unsigned)
      requires r.manifest
        == unsigned.(signature :=
                     SignatureFor(signer, "incident_manifest", unsigned.incidentId, ManifestBytes(unsigned)))
      requires |r.observations| == 1 && AllRespected(authority, r.assertions)
      requires unsigned.evidenceHashes
        == map[r.observations[0].observationId := crypto.hash(ObservationBytes(r.observations[0]))]
      requires unsigned.assertionsHash == crypto.hash(AssertionsBytes(r.assertions))
      requires unsigned.previousEventHash != ""
      requires DecidedOn(unsigned.decision, unsigned.incidentId, r.assertions)
      ensures WellRecorded(crypto, authority, signer, r)
    {
      SignatureChangesNothing(unsigned, r.manifest.signature);
      hide DecidedOn, AllRespected, Signable, ManifestBytes, ObservationBytes, AssertionsBytes, SignatureFor;
    }

    /** Nothing after the observation is refused: no ledger, and every role may do its part. */
    ghost predicate Empowered() {
      ArbiterWrites(INCIDENTS) && ArbiterWrites(FREEZES) && Terminates() && Entitled(authority)
    }

    lemma Powers()
      ensures Empowered() <==> ArbiterWrites(INCIDENTS) && ArbiterWrites(FREEZES) && Terminates() && Entitled(authority)
    {
    }

    lemma MakeWillRead(incidentId: string, workId: string, principal: string, observation: Observation,
                       assertions: seq<Assertion>, decision: Decision, freezeId: Option<string>,
                       operation: Option<string>, previous: string)
      requires Legible(incidentId, decision.decisionId, workId, principal, observation, previous)
      requires AllInVoice(Subject(incidentId, workId, principal), assertions)
      requires OptionReads(freezeId) && OptionReads(operation)
      ensures WillRead(incidentId, workId, principal, observation, assertions, decision, freezeId, operation, previous)
    {
    }

    /** Nothing stands in the way of concluding: nobody is refused, no id is taken, every text reads. */
    ghost predicate WillConclude(incidentId: string, decisionId: string, workId: string, principal: string,
                                 observation: Observation, assertions: seq<Assertion>, previous: string)
      reads gateway`store
    {
      && Empowered() && Untold(gateway.store, incidentId, 2)
      && Legible(incidentId, decisionId, workId, principal, observation, previous)
      && AllInVoice(Subject(incidentId, workId, principal), assertions)
    }

    lemma ConcludingMeans(incidentId: string, decisionId: string, workId: string, principal: string,
                          observation: Observation, assertions: seq<Assertion>, previous: string)
      requires WillConclude(incidentId, decisionId, workId, principal, observation, assertions, previous)
      ensures Empowered() && ArbiterWrites(INCIDENTS) && Untold(gateway.store, incidentId, 2)
      ensures !HasId(Written(gateway.store, INCIDENTS), LifecycleId(incidentId, 2, Adjudicated))
      ensures Legible(incidentId, decisionId, workId, principal, observation, previous)
      ensures AllInVoice(Subject(incidentId, workId, principal), assertions)
    {
      hide Untold, Legible, AllInVoice, HasId, Written, LifecycleId, ArbiterWrites, Terminates, Entitled;
      Ranks();
      UntoldNext(gateway.store, incidentId, Adjudicated);
    }

    /** Only an access established as outside the policy is contained, and the course says so. */
    method ContainIf(outside: bool, incidentId: string, workId: string, principal: string, active: seq<GrantEvent>,
                     before: seq<Assertion>, newId: string, lifecycle: seq<LifecycleEvent>, clock: Clock,
                     draft: string -> string)
      returns (r: Moved, assertions: seq<Assertion>, freezeId: Option<string>, operation: Option<string>,
               ghost said: seq<Assertion>, ghost k: Option<Termination>)
      requires Ready() && AllRespected(authority, before)
      requires OnRecord(gateway.store, incidentId, lifecycle, clock.now)
      requires Statuses(lifecycle) == [Observed, Investigating, Adjudicated]
      modifies gateway`denials, gateway`store, clock
      ensures Ready() && Extends(old(gateway.store), gateway.store) && old(clock.now) <= clock.now
      ensures !r.Illegal? && AllRespected(authority, assertions)
      ensures r.MovedTo? ==>
        OnRecord(gateway.store, incidentId, r.lifecycle, clock.now)
          && Statuses(r.lifecycle) == Statuses(lifecycle) + if outside then [Contained] else []
      ensures r.MovedTo? ==> freezeId == if outside then Some("freeze-" + incidentId) else None
      ensures r.MovedTo? && outside ==> HasId(Written(gateway.store, FREEZES), "freeze-" + incidentId)
      ensures r.MovedTo? ==> operation == if outside && active != [] then Some("incident-" + incidentId) else None
      ensures r.MovedTo? ==>
        assertions == before + said && |said| <= 1 && (|said| == 1 ==> said[0].assertionClass == RevocationInitiated)
      ensures r.MovedTo? ==>
        GrantsMovedBy(old(gateway.store), gateway.store, k, draft) && (k.Some? <==> outside && active != [])
      ensures r.MovedTo? && k.Some? ==>
        k.value.c == propagator.ConfigFor(workId, active[0].scope.useType, "incident-" + incidentId)
          && old(clock.now) < k.value.at
      ensures var x := Subject(incidentId, workId, principal);
        AllInVoice(x, before) ==> AllInVoice(x, assertions)
      ensures Empowered() && Untold(old(gateway.store), incidentId, 3) ==>
        r.MovedTo? && Closable(gateway.store, incidentId, |r.lifecycle|)
    {
      hide *;
      Ranks();
      ghost var s1, t1 := gateway.store, clock.now;
      ghost var able := Empowered() && Untold(s1, incidentId, 3);
      assertions, freezeId, operation, said, k := before, None, None, [], None;
      ExtendsReflexive(s1);
      assert |lifecycle| == |Statuses(lifecycle)| == 3;
      if able {
        Powers();
        UntoldIsClosable(s1, incidentId);
      }
      if !outside {
        GrantsSelf(s1);
        NothingContained(s1, s1, draft);
        assert before + [] == before && Statuses(lifecycle) + [] == Statuses(lifecycle);
        return MovedTo(lifecycle), before, None, None, [], None;
      }
      var ok;
      ok, assertions, operation, said, k :=
        Contain(incidentId, workId, principal, active, before, newId, clock, draft);
      if !ok {
        r := Raised;
        return;
      }
      freezeId := Some("freeze-" + incidentId);
      OnRecordPersists(s1, gateway.store, incidentId, lifecycle, t1, clock.now);
      LastStatus(lifecycle);
      ghost var s2 := gateway.store;
      if able {
        SameIncidents(s1, s2, incidentId, 3);
        UntoldIsClosable(s2, incidentId);
      }
      r := Transition(incidentId, lifecycle, Contained, clock);
      ExtendsTransitive(s1, s2, gateway.store);
      if !r.MovedTo? {
        return;
      }
      GrantsSame(s2, gateway.store, INCIDENTS);
      ContainedThen(s1, s2, gateway.store, k, draft);
      StillHas(s2, gateway.store, FREEZES, "freeze-" + incidentId);
      assert |r.lifecycle| == |Statuses(r.lifecycle)| == 4;
      if able {
        ContainedIsClosable(s2, gateway.store, incidentId);
      }
    }

    /** Adjudicate, contain if need be, close. */
    method Conclude(incidentId: string, decisionId: string, workId: string, principal: string, observation: Observation,
                    assertions: seq<Assertion>, active: seq<GrantEvent>, ghost forbids: bool, ghost advocate: bool,
                    previous: string, newId: string, openedAt: Instant, lifecycle: seq<LifecycleEvent>, clock: Clock,
                    draft: string -> string)
      returns (r: Ending, ghost k: Option<Termination>)
      requires Ready() && previous != "" && AllRespected(authority, assertions)
      requires OnRecord(gateway.store, incidentId, lifecycle, clock.now)
      requires Statuses(lifecycle) == [Observed, Investigating]
      requires Classes(assertions) == {ObservedHttpAccess} + Answers(active != [], forbids, advocate)
      modifies gateway`denials, gateway`store, clock
      ensures Ready() && Extends(old(gateway.store), gateway.store) && !r.IllegalTransition? && !r.NoObservation?
      ensures r.ClosedWith? ==>
        WellRecorded(crypto, authority, signer, r.result) && r.active == active
          && r.result.observations == [observation]
      ensures r.ClosedWith? ==> GrantsMovedBy(old(gateway.store), gateway.store, k, draft)
      ensures r.ClosedWith? ==>
        (k.Some? <==> Established(r.result.manifest.decision, AccessOutsideDeclaredPolicy) && active != [])
      ensures r.ClosedWith? && k.Some? ==>
        k.value.c == propagator.ConfigFor(workId, active[0].scope.useType, "incident-" + incidentId)
          && old(clock.now) < k.value.at
      ensures r.ClosedWith? ==>
        (Established(r.result.manifest.decision, AccessOutsideDeclaredPolicy) <==> active == [] || forbids)
      ensures r.ClosedWith? ==>
        (Established(r.result.manifest.decision, AccessWithinDeclaredPolicy) <==> active != [] && !forbids)
      ensures r.ClosedWith? ==>
        LeftOnRecord(gateway.store, incidentId, r, clock.now)
          && IsAbout(r.result.manifest, incidentId, workId, principal)
      ensures r.ClosedWith? && AllInVoice(Subject(incidentId, workId, principal), assertions) ==>
        AllInVoice(Subject(incidentId, workId, principal), r.result.assertions)
      ensures old(WillConclude(incidentId, decisionId, workId, principal, observation, assertions, previous)) ==>
        r.ClosedWith?
    {
      hide *;
      ghost var x := Subject(incidentId, workId, principal);
      Ranks();
      k := None;
      ghost var s0 := gateway.store;
      ghost var able := WillConclude(incidentId, decisionId, workId, principal, observation, assertions, previous);
      ExtendsReflexive(s0);
      var decidedAt := clock.Read();
      var decision := Adjudicate(assertions, incidentId, decisionId, decidedAt);
      OutsideFromAnswers(assertions, active != [], forbids, advocate, incidentId, decisionId, decidedAt);
      OnRecordPersists(s0, s0, incidentId, lifecycle, old(clock.now), clock.now);
      LastStatus(lifecycle);
      RulingKeepsItsId(assertions, incidentId, decisionId, decidedAt);
      if able {
        ConcludingMeans(incidentId, decisionId, workId, principal, observation, assertions, previous);
      }
      var moved := Transition(incidentId, lifecycle, Adjudicated, clock);
      if !moved.MovedTo? {
        r := if moved.Illegal? then IllegalTransition else Failed;
        return;
      }
      ghost var s1 := gateway.store;
      if able {
        StillUntold(s0, s1, incidentId, 2, Adjudicated);
      }
      GrantsSame(s0, s1, INCIDENTS);
      var all, freezeId, operation;
      var outside := Established(decision, AccessOutsideDeclaredPolicy);
      ghost var mark;
      moved, all, freezeId, operation, mark, k :=
        ContainIf(outside, incidentId, workId, principal, active, assertions, newId, moved.lifecycle, clock, draft);
      ExtendsTransitive(s0, s1, gateway.store);
      if !moved.MovedTo? {
        r := Failed;
        return;
      }
      ThenContained(s0, s1, gateway.store, k, draft);
      DecidedThenSaid(assertions, mark, incidentId, decisionId, decidedAt);
      LastStatus(moved.lifecycle);
      ghost var s3 := gateway.store;
      if able {
        ClosableMeans(s3, incidentId, |moved.lifecycle|);
        ContainmentReads(incidentId);
        MakeWillRead(incidentId, workId, principal, observation, all, decision, freezeId, operation, previous);
      }
      var result;
      moved, result :=
        Close(incidentId, workId, principal, observation, all, decision, freezeId, operation, previous, openedAt,
              moved.lifecycle, clock);
      ExtendsTransitive(s0, s3, gateway.store);
      if !moved.MovedTo? {
        r := if moved.Illegal? then IllegalTransition else Failed;
        return;
      }
      GrantsSame(s3, gateway.store, INCIDENTS);
      ContainedThen(s0, s3, gateway.store, k, draft);
      if outside {
        StillHas(s3, gateway.store, FREEZES, "freeze-" + incidentId);
      }
      r := ClosedWith(result, moved.lifecycle, active);
      MakeLeftOnRecord(gateway.store, incidentId, r, clock.now, outside);
    }

    /**
     * The run moved grants only by one termination of the first active grant's use, under its own operation, and that
     * exactly when an access outside the policy is established while a grant was active.
     */
    ghost predicate TerminatedBy(s: Store, t: Store, incidentId: string, workId: string, r: Ending,
                            k: Option<Termination>, draft: string -> string, from: Instant)
      requires r.ClosedWith?
    {
      && GrantsMovedBy(s, t, k, draft)
      && (k.Some? <==> Established(r.result.manifest.decision, AccessOutsideDeclaredPolicy) && r.active != [])
      && (k.Some? ==>
          k.value.c == propagator.ConfigFor(workId, r.active[0].scope.useType, "incident-" + incidentId)
            && from < k.value.at)
    }

    lemma MakeTerminatedBy(s: Store, t: Store, incidentId: string, workId: string, r: Ending, k: Option<Termination>,
                      draft: string -> string, from: Instant)
      requires r.ClosedWith? && GrantsMovedBy(s, t, k, draft)
      requires k.Some? <==> Established(r.result.manifest.decision, AccessOutsideDeclaredPolicy) && r.active != []
      requires k.Some? ==>
        k.value.c == propagator.ConfigFor(workId, r.active[0].scope.useType, "incident-" + incidentId)
          && from < k.value.at
      ensures TerminatedBy(s, t, incidentId, workId, r, k, draft, from)
    {
      hide GrantsMovedBy, Established;
    }

    /** Nothing stands in the way of the run: the record is there and legible, nobody is refused, no id is taken. */
    ghost predicate WillClose(incidentId: string, decisionId: string, recordId: string, workId: string,
                              principal: string, previous: string)
      reads gateway`store
    {
      && Empowered() && Reads(accounts.evidence, "evidence_agent", "crawler_access")
      && NegotiatorReads(workId, principal) && Reads(accounts.custodian, "rights_custodian", "works")
      && Untold(gateway.store, incidentId, 0)
      && exists o :: Records(parse, gateway.store, recordId, workId, o)
           && Legible(incidentId, decisionId, workId, principal, o, previous)
    }

    lemma ClosingMeans(incidentId: string, decisionId: string, recordId: string, workId: string, principal: string,
                       previous: string)
      requires WillClose(incidentId, decisionId, recordId, workId, principal, previous)
      ensures Empowered() && ArbiterWrites(INCIDENTS) && Entitled(authority)
      ensures Reads(accounts.evidence, "evidence_agent", "crawler_access") && NegotiatorReads(workId, principal)
      ensures Reads(accounts.custodian, "rights_custodian", "works") && Untold(gateway.store, incidentId, 0)
      ensures !HasId(Written(gateway.store, INCIDENTS), LifecycleId(incidentId, 0, Observed))
      ensures exists o :: Records(parse, gateway.store, recordId, workId, o)
      ensures forall o :: Records(parse, gateway.store, recordId, workId, o) ==>
        Legible(incidentId, decisionId, workId, principal, o, previous)
    {
      hide Untold, Legible, HasId, Written, LifecycleId, ArbiterWrites, Terminates, Entitled, Records, Reads,
           NegotiatorReads;
      Ranks();
      UntoldNext(gateway.store, incidentId, Observed);
      var o :| Records(parse, gateway.store, recordId, workId, o)
        && Legible(incidentId, decisionId, workId, principal, o, previous);
      forall q | Records(parse, gateway.store, recordId, workId, q) ensures q == o {
        RecordsOnce(parse, gateway.store, recordId, workId, o, q);
      }
    }

    lemma MakeWillConclude(incidentId: string, decisionId: string, workId: string, principal: string,
                           observation: Observation, assertions: seq<Assertion>, previous: string)
      requires Empowered() && Untold(gateway.store, incidentId, 2)
      requires Legible(incidentId, decisionId, workId, principal, observation, previous)
      requires AllInVoice(Subject(incidentId, workId, principal), assertions)
      ensures WillConclude(incidentId, decisionId, workId, principal, observation, assertions, previous)
    {
      hide Untold, Legible, AllInVoice, Empowered;
    }

    /**
     * The whole incident. Ids and the hash of the previous manifest are inputs; a missing observation, a denial, a
     * collision or a crash below ends the run.
     */
    method Run(incidentId: string, decisionId: string, recordId: string, workId: string, principal: string,
               includeAdvocate: bool, previous: string, newId: string, clock: Clock, draft: string -> string)
      returns (r: Ending, ghost k: Option<Termination>)
      requires Ready() && previous != ""
      modifies gateway`denials, gateway`store, clock
      ensures Ready() && Extends(old(gateway.store), gateway.store) && !r.IllegalTransition?
      ensures r.NoObservation? <==>
        && Reads(accounts.evidence, "evidence_agent", "crawler_access")
        && Query(old(gateway.store), "crawler_access", map["record_id" := recordId]) == []
      ensures r.ClosedWith? ==> AllInVoice(Subject(incidentId, workId, principal), r.result.assertions)
      ensures old(WillClose(incidentId, decisionId, recordId, workId, principal, previous)) ==> r.ClosedWith?
      ensures r.ClosedWith? ==> WellRecorded(crypto, authority, signer, r.result)
      ensures r.ClosedWith? ==> RestsOn(parse, old(gateway.store), recordId, workId, principal, r)
      ensures r.ClosedWith? ==>
        TerminatedBy(old(gateway.store), gateway.store, incidentId, workId, r, k, draft, old(clock.now))
      ensures r.ClosedWith? ==>
        LeftOnRecord(gateway.store, incidentId, r, clock.now)
          && IsAbout(r.result.manifest, incidentId, workId, principal)
    {
      hide *;
      k := None;
      ReadyIsTyped();
      ghost var x := Subject(incidentId, workId, principal);
      ghost var able := WillClose(incidentId, decisionId, recordId, workId, principal, previous);
      if able {
        ClosingMeans(incidentId, decisionId, recordId, workId, principal, previous);
      }
      ExtendsReflexive(gateway.store);
      var openedAt := clock.Read();
      var read := ReadObservation(recordId, workId);
      if read.None? || read.value.Unreadable? {
        r := Failed;
        return;
      }
      if read.value.Absent? {
        r := NoObservation;
        return;
      }
      var observation := read.value.observation;
      NothingOnRecord(gateway.store, incidentId, clock.now);
      ghost var s0 := gateway.store;
      var moved := Transition(incidentId, [], Observed, clock);
      if !moved.MovedTo? {
        r := if moved.Illegal? then IllegalTransition else Failed;
        return;
      }
      var basis := "crawler_access record " + observation.observationId;
      var first :=
        Assertion(SaidAs(incidentId, ObservedHttpAccess), ObservedHttpAccess, Voice(ObservedHttpAccess), workId,
                  principal, basis);
      NoAssertions(authority, first);
      NobodySpoke(x);
      MakeInVoice(x, ObservedHttpAccess, basis);
      OneMoreVoice(authority, x, [], first);
      var ok, assertions := Submit(accounts.evidence, first, []);
      if !ok {
        r := Failed;
        return;
      }
      ghost var s1 := gateway.store;
      Ranks();
      assert |moved.lifecycle| == |Statuses(moved.lifecycle)| == 1;
      if able {
        StillUntold(s0, s1, incidentId, 0, Observed);
        UntoldNext(s1, incidentId, Investigating);
      }
      moved := Transition(incidentId, moved.lifecycle, Investigating, clock);
      ExtendsTransitive(s0, s1, gateway.store);
      TouchedTwice(s0, s1, gateway.store, INCIDENTS);
      if !moved.MovedTo? {
        r := if moved.Illegal? then IllegalTransition else Failed;
        return;
      }
      var active;
      ok, active := ActiveAt(workId, principal, observation.observedAt);
      if !ok {
        r := Failed;
        return;
      }
      ReadyIsTyped();
      SameAnswers(s0, gateway.store, workId, principal, observation.observedAt);
      var forbidden;
      ok, assertions, forbidden := Investigate(incidentId, workId, principal, includeAdvocate, active, assertions);
      if !ok {
        r := Failed;
        return;
      }
      ghost var s2 := gateway.store;
      GrantsSame(s0, s2, INCIDENTS);
      if able {
        StillUntold(s1, s2, incidentId, 1, Investigating);
        MakeWillConclude(incidentId, decisionId, workId, principal, observation, assertions, previous);
      }
      r, k := Conclude(incidentId, decisionId, workId, principal, observation, assertions, active, forbidden,
                       includeAdvocate, previous, newId,
                       openedAt, moved.lifecycle, clock, draft);
      ExtendsTransitive(s0, s2, gateway.store);
      if r.ClosedWith? {
        MakeRestsOn(parse, s0, recordId, workId, principal, r, observation, forbidden);
        ThenContained(s0, s2, gateway.store, k, draft);
        MakeTerminatedBy(s0, gateway.store, incidentId, workId, r, k, draft, old(clock.now));
      }
    }
  }

  lemma StillHas(s: Store, t: Store, collection: string, id: string)
    requires Extends(s, t) && HasId(Written(s, collection), id)
    ensures HasId(Written(t, collection), id)
  {
    var b, c := Written(s, collection), Written(t, collection);
    var k :| 0 <= k < |b| && b[k].id == id;
    assert c[k] == b[k];
  }
}
