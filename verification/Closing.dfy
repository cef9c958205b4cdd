/** What a run needs in order to close: whom the walls let through, which ids are free, and which texts read. */
module Closing {
  import opened Scopes
  import opened Lattice
  import opened Resolver
  import opened Effects
  import opened Gateway
  import opened Cascade
  import opened CascadeTheorems
  import opened Adjudication
  import opened Documents
  import T = Timestamps
  import opened Legibility
  import opened Package
  import L = Lease
  import Sorting
  import Text

  // ------------------------------------------------------------------
  // Voices
  // ------------------------------------------------------------------

  /** The role that speaks for a class. */
  function Voice(c: AssertionClass): string {
    match c
    case ObservedHttpAccess => "evidence_agent"
    case GrantExisted => "licensing_negotiator"
    case GrantDidNotExist => "licensing_negotiator"
    case AccessInconsistentWithScope => "rights_custodian"
    case RevocationInitiated => "revocation_propagator"
    case AccessDoesNotEstablishTraining => "counterparty_advocate"
  }

  /** Which incident, about which work, against whom. */
  datatype Subject = Subject(incidentId: string, workId: string, principal: string)

  function Topic(c: AssertionClass): string {
    match c
    case ObservedHttpAccess => "observed"
    case GrantExisted => "grant"
    case GrantDidNotExist => "grant"
    case AccessInconsistentWithScope => "scope"
    case RevocationInitiated => "revocation"
    case AccessDoesNotEstablishTraining => "advocate"
  }

  /** `assert-{incident}-{topic}` */
  function SaidAs(incidentId: string, c: AssertionClass): string {
    "assert-" + incidentId + "-" + Topic(c)
  }

  /** Said by the role its class belongs to, under the incident's id for it, about its work and its principal. */
  predicate InVoice(x: Subject, a: Assertion) {
    && a.assertedByRole == Voice(a.assertionClass) && a.assertionId == SaidAs(x.incidentId, a.assertionClass)
    && a.subjectWorkId == x.workId && a.subjectPrincipal == x.principal
  }

  ghost predicate AllInVoice(x: Subject, assertions: seq<Assertion>) {
    forall a :: a in assertions ==> InVoice(x, a)
  }

  lemma NobodySpoke(x: Subject)
    ensures AllInVoice(x, [])
  {
  }

  /** Who speaks for what. */
  lemma VoicesAre()
    ensures Voice(ObservedHttpAccess) == "evidence_agent" && Voice(GrantExisted) == "licensing_negotiator"
    ensures Voice(GrantDidNotExist) == "licensing_negotiator" && Voice(RevocationInitiated) == "revocation_propagator"
    ensures Voice(AccessInconsistentWithScope) == "rights_custodian"
    ensures Voice(AccessDoesNotEstablishTraining) == "counterparty_advocate"
  {
  }

  /** Every role may assert what it speaks for. */
  ghost predicate Entitled(authority: map<string, set<string>>) {
    forall c: AssertionClass :: MayAssert(authority, Voice(c), ClassName(c))
  }

  /** What one assertion in its own voice adds. */
  lemma OneMoreVoice(authority: map<string, set<string>>, x: Subject, assertions: seq<Assertion>, a: Assertion)
    requires InVoice(x, a)
    ensures AllInVoice(x, assertions) ==> AllInVoice(x, assertions + [a])
    ensures Entitled(authority) ==> Respected(authority, a)
    ensures Classes(assertions + [a]) == Classes(assertions) + {a.assertionClass}
  {
    hide MayAssert, Voice, ClassName, Topic;
    var more := assertions + [a];
    assert a in more && forall b :: b in assertions ==> b in more;
    assert forall b :: b in more ==> b in assertions || b == a;
  }

  lemma MakeInVoice(x: Subject, c: AssertionClass, basis: string)
    ensures InVoice(x, Assertion(SaidAs(x.incidentId, c), c, Voice(c), x.workId, x.principal, basis))
  {
  }

  /** With no ledger attached, a propagator the policy clears is never stopped. */
  lemma ClearedWillPass(p: RevocationPropagator, from: Instant, to: Instant)
    ensures p.gateway.ledger == null && p.IsCleared() ==> p.WillPass(None, from, to)
  {
    hide Cleared;
  }

  // ------------------------------------------------------------------
  // What one create, and a whole cascade, does to other ids
  // ------------------------------------------------------------------

  /** In the collection, this id and no other is new. */
  ghost predicate Gained(s: Store, t: Store, collection: string, id: string) {
    forall x :: HasId(Written(t, collection), x) <==> HasId(Written(s, collection), x) || x == id
  }

  lemma GainedMeans(s: Store, t: Store, collection: string, id: string)
    requires Gained(s, t, collection, id)
    ensures forall x :: HasId(Written(t, collection), x) <==> HasId(Written(s, collection), x) || x == id
  {
  }

  lemma CreatedGains(s: Store, w: Write)
    ensures Gained(s, CreateAll(s, [w]), w.collection, w.id)
  {
    OneCreate(s, w);
    var t := CreateAll(s, [w]);
    hide CreateAll, Extends;
    if Taken(s, w) {
      assert t == s;
    } else {
      forall x ensures HasId(Written(t, w.collection), x) <==> HasId(Written(s, w.collection), x) || x == w.id {
        HasIdConcat(Written(s, w.collection), [Entry(w.id, w.doc)], x);
        assert [Entry(w.id, w.doc)][0].id == w.id;
      }
    }
  }

  lemma {:induction false} NothingElsewhere(writes: seq<Write>, k: string)
    requires forall w :: w in writes ==> w.collection != k
    ensures Tail(writes, k) == []
  {
    if writes != [] {
      assert writes[|writes| - 1] in writes;
      NothingElsewhere(writes[..|writes| - 1], k);
    }
  }

  lemma BatchKeepsOthers(s: Store, writes: seq<Write>, k: string)
    requires forall w :: w in writes ==> w.collection != k
    ensures Written(CreateAll(s, writes), k) == Written(s, k)
  {
    CreateAllCases(s, writes);
    if AllFree(s, writes) {
      BatchAppends(s, writes);
      NothingElsewhere(writes, k);
    }
  }

  lemma PairKeepsOthers(c: Config, s: Store, st: GrantState, d: Draft, k: string)
    requires st.activeScope.Some? && st.counterpartyId.Some? && k != c.names.grants && k != c.names.outbox
    ensures Written(CreateAll(s, Pair(c, st, d)), k) == Written(s, k)
  {
    BatchKeepsOthers(s, Pair(c, st, d), k);
  }

  lemma {:induction false} Phase1KeepsOthers(c: Config, s: Store, snapshot: seq<GrantEvent>, at: Instant,
                                             drafts: map<string, Draft>, gids: seq<string>, k: string)
    requires k != c.names.grants && k != c.names.outbox
    ensures Written(Phase1(c, s, snapshot, at, drafts, gids), k) == Written(s, k)
  {
    hide Written, Pair, Resolved, CreateAll;
    if gids != [] {
      var front, gid := gids[..|gids| - 1], gids[|gids| - 1];
      Phase1KeepsOthers(c, s, snapshot, at, drafts, front, k);
      var st := Resolved(gid, None, snapshot);
      if Selected(c, st, at) {
        PairKeepsOthers(c, Phase1(c, s, snapshot, at, drafts, front), st, DraftFor(drafts, gid), k);
      }
    }
  }

  /** A cascade leaves every collection but its own three alone. */
  lemma CascadeKeepsOthers(c: Config, before: Store, after: Store, at: Instant, drafts: map<string, Draft>,
                           r: CascadeResult, k: string)
    requires Completed(c, before, after, at, drafts, r)
    requires k != c.names.grants && k != c.names.outbox && k != c.names.notices
    ensures Written(after, k) == Written(before, k)
  {
    var snapshot := Snapshot(c, before);
    var gids := Text.Sorted(GrantIds(snapshot));
    var mid := Phase1(c, before, snapshot, at, drafts, gids);
    hide Typed, Snapshot, Phase1, Phase2, Owed, Sorting.SortBy, Receipts, NewlyCommitted, Affected, GrantIds,
         Text.Ascending, Derivation, Written, TerminatedUnion, Taken, Extends, NoticeWrite;
    Phase1KeepsOthers(c, before, snapshot, at, drafts, gids, k);
    Phase2Frame(c, mid, Sorting.SortBy(RowLeq, Owed(c, mid)));
  }

  /** Without a ledger no lease is asked for. */
  lemma UnleasedIff(ledger: Option<seq<L.LeaseEvent>>, sa: string, role: string, collection: string, now: Instant)
    ensures LeaseCheck(ledger, sa, role, collection, None, now).Done? <==> ledger.None?
  {
  }

  // ------------------------------------------------------------------
  // The record a run leaves reads
  // ------------------------------------------------------------------

  /** No digest looks like a timestamp without being one. */
  ghost predicate DigestsRead(k: Crypto) {
    forall x :: T.Parses(k.hash(x))
  }

  lemma IdReads(x: Subject, a: Assertion)
    requires InVoice(x, a)
    ensures T.Parses(a.assertionId) && T.Parses(a.assertedByRole)
  {
    assert a.assertionId[0] == 'a';
    WordReads(a.assertionId);
    WordReads(a.assertedByRole);
    hide T.Parses;
  }

  lemma BasisReads(x: Subject, assertions: seq<Assertion>, c: AssertionClass)
    requires AllInVoice(x, assertions)
    ensures AllRead(BasisOf(assertions, c))
  {
    var basis := BasisOf(assertions, c);
    forall i | 0 <= i < |basis| ensures T.Parses(basis[i]) {
      BasisOfMembers(assertions, c, basis[i]);
      var a :| a in assertions && Grounds(a, c, basis[i]);
      IdReads(x, a);
      hide T.Parses;
    }
  }

  lemma TrainingReads(assertions: seq<Assertion>)
    ensures T.Parses(TrainingAnswer(assertions)) && T.Parses(CONSENT_POLICY)
  {
    WordReads(CONSENT_POLICY);
    assert TrainingAnswer(assertions)[0] == 'N';
    WordReads(TrainingAnswer(assertions));
    hide *;
  }

  lemma TwoBases(a: seq<string>, b: seq<string>)
    requires AllRead(a) && AllRead(b)
    ensures AllRead(a + b)
  {
    hide T.Parses;
  }

  lemma RulingParts(assertions: seq<Assertion>, incidentId: string, decisionId: string, at: Instant)
    ensures var d := Adjudicate(assertions, incidentId, decisionId, at);
      && d.decisionId == decisionId && d.incidentId == incidentId && d.policyVersion == CONSENT_POLICY
      && d.notDeterminable == map[TRAINING := TrainingAnswer(assertions)] && |d.findings| == 2
    ensures var d := Adjudicate(assertions, incidentId, decisionId, at);
      && (d.findings[0].basis == []
          || d.findings[0].basis == BasisOf(assertions, ObservedHttpAccess) + BasisOf(assertions, GrantDidNotExist)
            + BasisOf(assertions, AccessInconsistentWithScope))
      && (d.findings[1].basis == []
          || d.findings[1].basis == BasisOf(assertions, ObservedHttpAccess) + BasisOf(assertions, GrantExisted))
  {
    hide BasisOf, Outside, Within, TrainingAnswer, CONSENT_POLICY, TRAINING;
  }

  lemma PartsRead(d: Decision)
    requires T.Parses(d.decisionId) && T.Parses(d.incidentId) && T.Parses(d.policyVersion)
    requires MapReads(d.notDeterminable)
    requires |d.findings| == 2 && AllRead(d.findings[0].basis) && AllRead(d.findings[1].basis)
    ensures DecisionReads(d)
  {
    hide T.Parses, AllRead, MapReads;
  }

  lemma OneEntryReads(key: string, text: string)
    requires T.Parses(text)
    ensures MapReads(map[key := text]) && AllRead([])
  {
    hide T.Parses;
  }

  lemma RulingReads(x: Subject, assertions: seq<Assertion>, incidentId: string, decisionId: string, at: Instant)
    requires AllInVoice(x, assertions) && T.Parses(incidentId) && T.Parses(decisionId)
    ensures DecisionReads(Adjudicate(assertions, incidentId, decisionId, at))
  {
    hide *;
    RulingParts(assertions, incidentId, decisionId, at);
    TrainingReads(assertions);
    OneEntryReads(TRAINING, TrainingAnswer(assertions));
    BasisReads(x, assertions, ObservedHttpAccess);
    BasisReads(x, assertions, GrantDidNotExist);
    BasisReads(x, assertions, AccessInconsistentWithScope);
    BasisReads(x, assertions, GrantExisted);
    var seen := BasisOf(assertions, ObservedHttpAccess);
    TwoBases(seen, BasisOf(assertions, GrantDidNotExist));
    TwoBases(seen + BasisOf(assertions, GrantDidNotExist), BasisOf(assertions, AccessInconsistentWithScope));
    TwoBases(seen, BasisOf(assertions, GrantExisted));
    PartsRead(Adjudicate(assertions, incidentId, decisionId, at));
  }

  lemma DecidedReads(d: Decision, x: Subject, incidentId: string, assertions: seq<Assertion>)
    requires DecidedOn(d, incidentId, assertions) && AllInVoice(x, assertions)
    requires T.Parses(incidentId) && T.Parses(d.decisionId)
    ensures DecisionReads(d)
  {
    hide T.Parses, InVoice, Adjudicate, DecisionReads;
    if d == Adjudicate(assertions, incidentId, d.decisionId, d.decidedAt) {
      RulingReads(x, assertions, incidentId, d.decisionId, d.decidedAt);
    } else {
      RulingReads(x, assertions[..|assertions| - 1], incidentId, d.decisionId, d.decidedAt);
    }
  }

  lemma NamesRead(x: Subject, assertions: seq<Assertion>, roles: seq<string>, ids: seq<string>)
    requires AllInVoice(x, assertions)
    requires forall r :: r in roles ==> r == "consent_arbiter" || exists a :: a in assertions && a.assertedByRole == r
    requires |ids| == |assertions| && forall i :: 0 <= i < |ids| ==> ids[i] == assertions[i].assertionId
    ensures AllRead(roles) && AllRead(ids)
  {
    WordReads("consent_arbiter");
    forall a | a in assertions ensures T.Parses(a.assertionId) && T.Parses(a.assertedByRole) {
      IdReads(x, a);
    }
    hide T.Parses, InVoice;
    forall i | 0 <= i < |roles| ensures T.Parses(roles[i]) {
      assert roles[i] in roles;
    }
  }

  lemma EvidenceReads(k: Crypto, id: string, observation: string, assertions: string)
    requires DigestsRead(k)
    ensures MapReads(map[id := k.hash(observation)]) && T.Parses(k.hash(assertions))
  {
    hide T.Parses;
  }
}
