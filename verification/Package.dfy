/** The exported incident package and its independent verification. */
module Package {
  import opened Scopes
  import opened Gateway
  import opened Adjudication
  import opened Documents
  import opened CanonicalJson
  import T = Timestamps

  datatype Signer = Signer(keyId: string, pem: string, sign: string -> string)

  /** The envelope algorithms a signature may name. */
  predicate IsEnvelope(value: string) {
    "ED25519-EPHEMERAL:" <= value || "KMS-ECDSA-P256-SHA256:" <= value
  }

  /** Signing then verifying succeeds. */
  ghost predicate Works(k: Crypto, s: Signer) {
    s.pem != "" && forall p :: IsEnvelope(s.sign(p)) && k.verify(s.pem, s.sign(p), p)
  }

  function Placeholder(kind: string, reference: string): string {
    "UNSIGNED_PLACEHOLDER:" + kind + ":" + reference
  }

  lemma PlaceholderIsNoEnvelope(kind: string, reference: string)
    ensures !IsEnvelope(Placeholder(kind, reference))
  {
    assert Placeholder(kind, reference)[0] == 'U';
  }

  function SignatureFor(signer: Option<Signer>, kind: string, reference: string, payload: string): string {
    if signer.None? then Placeholder(kind, reference) else signer.value.sign(payload)
  }

  datatype IncidentResult = IncidentResult(
    manifest: Manifest,
    assertions: seq<Assertion>,
    observations: seq<Observation>)

  datatype Package = Package(
    manifest: Manifest,
    manifestHash: string,
    assertions: seq<Assertion>,
    observations: seq<Observation>,
    verificationKey: Option<string>)

  function ManifestHash(k: Crypto, m: Manifest): string
    requires Signable(m)
  {
    k.hash(ManifestBytes(m))
  }

  /**
   * The key travels with the package: the one handed in, else the active signer's. None when building the bytes raises.
   */
  function ExportPackage(k: Crypto, signer: Option<Signer>, r: IncidentResult,
                         publicKey: Option<string>): Option<Package> {
    if !Signable(r.manifest) then None
    else
      Some(Package(r.manifest, ManifestHash(k, r.manifest), r.assertions, r.observations,
                   if publicKey.None? && signer.Some? then Some(signer.value.pem) else publicKey))
  }

  // ------------------------------------------------------------------
  // Verification
  // ------------------------------------------------------------------

  datatype Check =
    | SignatureValid
    | ManifestHashMatches
    | EvidenceHash(observationId: string)
    | EveryObservationPresent
    | AssertionsHashMatches
    | AuthorityRespected(role: string, assertionClass: AssertionClass)
    | DecisionReproduced
    | BoundaryIntact
    | ChainLinkRecorded

  datatype Line = Line(check: Check, ok: bool)

  predicate AllOk(report: seq<Line>) {
    forall l :: l in report ==> l.ok
  }

  predicate SignatureOk(k: Crypto, p: Package)
    requires Signable(p.manifest)
  {
    && p.verificationKey.Some? && p.verificationKey.value != ""
    && IsEnvelope(p.manifest.signature)
    && k.verify(p.verificationKey.value, p.manifest.signature, ManifestBytes(p.manifest))
  }

  predicate EvidenceOk(k: Crypto, m: Manifest, o: Observation) {
    o.observationId in m.evidenceHashes && m.evidenceHashes[o.observationId] == k.hash(ObservationBytes(o))
  }

  function Ids(observations: seq<Observation>): set<string> {
    set o | o in observations :: o.observationId
  }

  predicate Reproduced(p: Package) {
    var d := p.manifest.decision;
    Adjudicate(p.assertions, p.manifest.incidentId, d.decisionId, d.decidedAt) == d
  }

  predicate BoundaryOk(m: Manifest) {
    TRAINING in m.decision.notDeterminable && NOT_ESTABLISHED <= m.decision.notDeterminable[TRAINING]
  }

  predicate Respected(authority: map<string, set<string>>, a: Assertion) {
    MayAssert(authority, a.assertedByRole, ClassName(a.assertionClass))
  }

  /** Everything the report must say about a package, as one condition. */
  ghost predicate Proven(k: Crypto, authority: map<string, set<string>>, p: Package) {
    Signable(p.manifest) && SignatureOk(k, p) && SelfConsistent(k, authority, p)
  }

  /** Every check but the signature. */
  ghost predicate SelfConsistent(k: Crypto, authority: map<string, set<string>>, p: Package)
    requires Signable(p.manifest)
  {
    && ManifestHash(k, p.manifest) == p.manifestHash
    && AllEvidence(k, p.manifest, p.observations)
    && p.manifest.evidenceHashes.Keys <= Ids(p.observations)
    && k.hash(AssertionsBytes(p.assertions)) == p.manifest.assertionsHash
    && AllRespected(authority, p.assertions)
    && Reproduced(p) && BoundaryOk(p.manifest) && p.manifest.previousEventHash != ""
  }

  lemma Lines(a: seq<Line>, b: seq<Line>)
    ensures AllOk(a + b) <==> AllOk(a) && AllOk(b)
  {
    assert forall x :: x in a || x in b ==> x in a + b;
    assert forall x :: x in a + b ==> x in a || x in b;
  }

  lemma OneLine(l: Line)
    ensures AllOk([l]) <==> l.ok
  {
    assert l in [l];
  }

  ghost predicate AllEvidence(k: Crypto, m: Manifest, observations: seq<Observation>) {
    forall o :: o in observations ==> EvidenceOk(k, m, o)
  }

  ghost predicate AllRespected(authority: map<string, set<string>>, assertions: seq<Assertion>) {
    forall a :: a in assertions ==> Respected(authority, a)
  }

  /** Every observation's hash against the manifest's. */
  method CheckEvidence(k: Crypto, m: Manifest, observations: seq<Observation>) returns (report: seq<Line>)
    ensures AllOk(report) <==> AllEvidence(k, m, observations)
  {
    report := [];
    hide EvidenceOk;
    for i := 0 to |observations|
      invariant AllOk(report) <==> AllEvidence(k, m, observations[..i])
    {
      hide AllOk;
      var l := Line(EvidenceHash(observations[i].observationId), EvidenceOk(k, m, observations[i]));
      Lines(report, [l]);
      OneLine(l);
      report := report + [l];
      assert observations[..i + 1] == observations[..i] + [observations[i]];
    }
    assert observations[..|observations|] == observations;
  }

  /** Every assertion against its role's authority. */
  method CheckAuthority(authority: map<string, set<string>>, assertions: seq<Assertion>) returns (report: seq<Line>)
    ensures AllOk(report) <==> AllRespected(authority, assertions)
  {
    report := [];
    hide Respected;
    for i := 0 to |assertions|
      invariant AllOk(report) <==> AllRespected(authority, assertions[..i])
    {
      hide AllOk;
      var a := assertions[i];
      var l := Line(AuthorityRespected(a.assertedByRole, a.assertionClass), Respected(authority, a));
      Lines(report, [l]);
      OneLine(l);
      report := report + [l];
      assert assertions[..i + 1] == assertions[..i] + [assertions[i]];
    }
    assert assertions[..|assertions|] == assertions;
  }

  /**
   * Re-checks a package with nothing but the package: the report's first line is the signature, the rest are the
   * content checks, and all pass exactly when the package is what it says it is. No report when normalising the
   * manifest raises.
   */
  method VerifyPackage(k: Crypto, authority: map<string, set<string>>, p: Package) returns (result: Option<seq<Line>>)
    ensures result.Some? <==> Signable(p.manifest)
    ensures result.Some? ==> result.value != [] && result.value[0] == Line(SignatureValid, SignatureOk(k, p))
    ensures result.Some? ==> (AllOk(result.value) <==> Proven(k, authority, p))
    ensures result.Some? ==> (AllOk(result.value[1..]) <==> SelfConsistent(k, authority, p))
  {
    if !Signable(p.manifest) {
      return None;
    }
    hide AllOk, EvidenceOk, Reproduced, BoundaryOk, SignatureOk, Respected, Ids, Signable, ManifestBytes;
    var signature := Line(SignatureValid, SignatureOk(k, p));
    var hashed := Line(ManifestHashMatches, ManifestHash(k, p.manifest) == p.manifestHash);
    var evidence := CheckEvidence(k, p.manifest, p.observations);
    var present := Line(EveryObservationPresent, p.manifest.evidenceHashes.Keys <= Ids(p.observations));
    var bound := Line(AssertionsHashMatches, k.hash(AssertionsBytes(p.assertions)) == p.manifest.assertionsHash);
    var respected := CheckAuthority(authority, p.assertions);
    var reproduced := Line(DecisionReproduced, Reproduced(p));
    var boundary := Line(BoundaryIntact, BoundaryOk(p.manifest));
    var chained := Line(ChainLinkRecorded, p.manifest.previousEventHash != "");
    var front, back := [hashed] + evidence + [present, bound], respected + [reproduced, boundary, chained];
    var report := [signature] + (front + back);
    result := Some(report);
    Assembled(hashed, evidence, present, bound, respected, reproduced, boundary, chained);
    Lines([signature], front + back);
    OneLine(signature);
    assert report[1..] == front + back;
  }

  lemma Assembled(hashed: Line, evidence: seq<Line>, present: Line, bound: Line, respected: seq<Line>, reproduced: Line,
                  boundary: Line, chained: Line)
    ensures AllOk([hashed] + evidence + [present, bound] + (respected + [reproduced, boundary, chained])) <==>
      && hashed.ok && AllOk(evidence) && present.ok && bound.ok
      && AllOk(respected) && reproduced.ok && boundary.ok && chained.ok
  {
    var two, three := [present, bound], [reproduced, boundary, chained];
    assert present in two && bound in two && reproduced in three && boundary in three && chained in three;
    Lines([hashed] + evidence + two, respected + three);
    Lines([hashed] + evidence, two);
    Lines([hashed], evidence);
    OneLine(hashed);
    Lines(respected, three);
  }

  // ------------------------------------------------------------------
  // Tampering
  // ------------------------------------------------------------------

  /** A signature is over one payload: no second payload verifies under the same key and envelope. */
  ghost predicate BindsOnePayload(k: Crypto, pem: string, envelope: string) {
    forall p, q :: k.verify(pem, envelope, p) && k.verify(pem, envelope, q) ==> p == q
  }

  /** No two different things in the two packages have one digest: what SHA-256 is relied on for. */
  ghost predicate NoCollision(k: Crypto, p: Package, genuine: Package) {
    && (forall a, b :: a in p.observations && b in genuine.observations && SameDigest(k, a, b) ==>
        ObservationBytes(a) == ObservationBytes(b))
    && (k.hash(AssertionsBytes(p.assertions)) == k.hash(AssertionsBytes(genuine.assertions)) ==>
        AssertionsBytes(p.assertions) == AssertionsBytes(genuine.assertions))
  }

  predicate SameDigest(k: Crypto, a: Observation, b: Observation) {
    k.hash(ObservationBytes(a)) == k.hash(ObservationBytes(b))
  }

  /** The same members, in any order and number. */
  ghost predicate SameMembers(a: seq<Observation>, b: seq<Observation>) {
    forall o :: o in a <==> o in b
  }

  /** The decision, but for how its own id and its incident's are written. */
  ghost predicate SameRuling(p: Package, genuine: Package) {
    var d := p.manifest.decision;
    d == genuine.manifest.decision.(decisionId := d.decisionId, incidentId := p.manifest.incidentId)
  }

  /**
   * What is left open to whoever re-writes a package and keeps its key and signature: the spelling of timestamps in the
   * manifest.
   */
  ghost predicate Harmless(p: Package, genuine: Package) {
    && ReSpelt(genuine.manifest, p.manifest) && SameRuling(p, genuine)
    && p.manifestHash == genuine.manifestHash && p.assertions == genuine.assertions
    && SameMembers(p.observations, genuine.observations)
  }

  /**
   * Under a genuine package's key and signature exactly its re-spellings verify: every assertion, observation and
   * finding is the genuine one, and nothing else of the manifest differs but how a timestamp is written.
   */
  lemma TamperingIsDetected(k: Crypto, authority: map<string, set<string>>, genuine: Package, p: Package)
    requires PlainDigests(k) && NoCollision(k, p, genuine) && Proven(k, authority, genuine)
    requires p.verificationKey == genuine.verificationKey && p.manifest.signature == genuine.manifest.signature
    requires BindsOnePayload(k, p.verificationKey.value, p.manifest.signature)
    ensures Proven(k, authority, p) <==> Harmless(p, genuine)
  {
    hide *;
    if Proven(k, authority, p) {
      ProvenIsHarmless(k, authority, genuine, p);
    }
    if Harmless(p, genuine) {
      HarmlessIsProven(k, authority, genuine, p);
    }
  }

  lemma ProvenIsHarmless(k: Crypto, authority: map<string, set<string>>, genuine: Package, p: Package)
    requires PlainDigests(k) && NoCollision(k, p, genuine) && Proven(k, authority, genuine) && Proven(k, authority, p)
    requires p.verificationKey == genuine.verificationKey && p.manifest.signature == genuine.manifest.signature
    requires BindsOnePayload(k, p.verificationKey.value, p.manifest.signature)
    ensures Harmless(p, genuine)
  {
    hide Signable, ManifestBytes, Respected, BoundaryOk, IsEnvelope, ReSpelt, Adjudicate, EvidenceOk, PlainDigests, Ids;
    BytesAgreeIff(genuine.manifest, p.manifest);
    HashedBytesTellApart();
    assert ReSpelt(genuine.manifest, p.manifest);
    HashesAreSame(k, genuine.manifest, p.manifest, genuine.assertions, genuine.observations);
    SameEvidence(k, genuine.manifest, p.manifest, p.observations, genuine.observations);
    SameInstants(genuine.manifest, p.manifest);
    RulingAgrees(p, genuine);
  }

  lemma HarmlessIsProven(k: Crypto, authority: map<string, set<string>>, genuine: Package, p: Package)
    requires PlainDigests(k) && Proven(k, authority, genuine) && Harmless(p, genuine)
    requires p.verificationKey == genuine.verificationKey && p.manifest.signature == genuine.manifest.signature
    ensures Proven(k, authority, p)
  {
    hide Signable, ManifestBytes, Respected, IsEnvelope, ReSpelt, Adjudicate, EvidenceOk, PlainDigests, Ids;
    BytesAgreeIff(genuine.manifest, p.manifest);
    HashesAreSame(k, genuine.manifest, p.manifest, genuine.assertions, genuine.observations);
    EvidenceCarries(k, genuine.manifest, p.manifest, genuine.observations, p.observations);
    SameInstants(genuine.manifest, p.manifest);
    RulingAgrees(p, genuine);
  }

  /** A digest is no timestamp, so a re-spelling leaves the digests of a well-bound manifest alone. */
  lemma HashesAreSame(k: Crypto, a: Manifest, b: Manifest, assertions: seq<Assertion>, observations: seq<Observation>)
    requires PlainDigests(k) && ReSpelt(a, b) && AllEvidence(k, a, observations)
    requires a.evidenceHashes.Keys <= Ids(observations)
    requires k.hash(AssertionsBytes(assertions)) == a.assertionsHash
    ensures b.evidenceHashes == a.evidenceHashes && b.assertionsHash == a.assertionsHash
  {
    hide SameTexts, SameOption, SameDecision, SameObservations, T.IsTimestamp, AssertionsBytes,
         ObservationBytes;
    forall id | id in a.evidenceHashes ensures b.evidenceHashes[id] == a.evidenceHashes[id] {
      var o :| o in observations && o.observationId == id;
      assert EvidenceOk(k, a, o);
    }
  }

  lemma SameInstants(a: Manifest, b: Manifest)
    requires ReSpelt(a, b)
    ensures b.decision.decidedAt == a.decision.decidedAt
    ensures b.previousEventHash == "" <==> a.previousEventHash == ""
  {
    hide SameTexts, SameOption, SameTextMap, SameFindings, SameObservations, T.Read, T.ValidFields;
  }

  /** One ruling on one list of assertions, whatever its ids are written like. */
  lemma RulingAgrees(p: Package, genuine: Package)
    requires Reproduced(genuine) && p.assertions == genuine.assertions
    requires p.manifest.decision.decidedAt == genuine.manifest.decision.decidedAt
    ensures Reproduced(p) <==> SameRuling(p, genuine)
    ensures SameRuling(p, genuine) ==> (BoundaryOk(p.manifest) <==> BoundaryOk(genuine.manifest))
  {
    hide Classes, BasisOf, TrainingAnswer, Outside, Within;
  }

  lemma SameEvidence(k: Crypto, m: Manifest, n: Manifest, a: seq<Observation>, b: seq<Observation>)
    requires m.evidenceHashes == n.evidenceHashes && AllEvidence(k, n, a) && AllEvidence(k, m, b)
    requires m.evidenceHashes.Keys <= Ids(a) && m.evidenceHashes.Keys <= Ids(b)
    requires forall x, y :: x in a && y in b && SameDigest(k, x, y) ==> x == y
    ensures SameMembers(a, b)
  {
    hide ObservationBytes;
    forall o | o in a ensures o in b {
      assert EvidenceOk(k, n, o) && o.observationId in Ids(b);
      var x :| x in b && x.observationId == o.observationId;
      assert EvidenceOk(k, m, x) && SameDigest(k, o, x);
    }
    forall o | o in b ensures o in a {
      assert EvidenceOk(k, m, o) && o.observationId in Ids(a);
      var x :| x in a && x.observationId == o.observationId;
      assert EvidenceOk(k, n, x) && SameDigest(k, x, o);
    }
  }

  lemma EvidenceCarries(k: Crypto, m: Manifest, n: Manifest, a: seq<Observation>, b: seq<Observation>)
    requires m.evidenceHashes == n.evidenceHashes && SameMembers(b, a)
    requires AllEvidence(k, m, a) && m.evidenceHashes.Keys <= Ids(a)
    ensures AllEvidence(k, n, b) && n.evidenceHashes.Keys <= Ids(b)
  {
    hide ObservationBytes;
    assert Ids(a) == Ids(b);
  }

  // ------------------------------------------------------------------
  // A re-spelling that goes unnoticed
  // ------------------------------------------------------------------

  /**
   * A crawler that declares a timestamp as its user agent: the manifest's copy of it can be re-spelt and every check
   * still passes.
   */
  lemma RespeltAgentVerifies(k: Crypto, authority: map<string, set<string>>, genuine: Package, o: Observation)
    requires PlainDigests(k) && Proven(k, authority, genuine) && genuine.manifest.observations == [o]
    requires o.declaredUserAgent == T.ZULU
    ensures var p := genuine.(manifest := genuine.manifest.(observations := [o.(declaredUserAgent := T.OFFSET_ZERO)]));
      p.manifest != genuine.manifest && Proven(k, authority, p)
  {
    var p := genuine.(manifest := genuine.manifest.(observations := [o.(declaredUserAgent := T.OFFSET_ZERO)]));
    T.TwoSpellings();
    hide T.ZULU, T.OFFSET_ZERO;
    assert p.manifest.observations[0] != genuine.manifest.observations[0];
    hide *;
    OneAgentReSpelt(genuine.manifest, p.manifest, o, T.OFFSET_ZERO);
    UnchangedRest(k, authority, genuine, p);
    HarmlessIsProven(k, authority, genuine, p);
  }

  lemma OneAgentReSpelt(m: Manifest, n: Manifest, o: Observation, agent: string)
    requires m.observations == [o] && T.SameSpelt(o.declaredUserAgent, agent)
    requires n == m.(observations := [o.(declaredUserAgent := agent)])
    ensures ReSpelt(m, n)
  {
    AsSpelt(m);
    assert SameObservation(m.observations[0], n.observations[0]) by {
      hide T.IsTimestamp;
    }
    hide T.SameSpelt, SameTexts, SameDecision, SameTextMap, SameOption, SameObservation;
  }

  lemma AsSpelt(m: Manifest)
    ensures SameTexts(m.agentsInvolved, m.agentsInvolved) && SameTexts(m.decisionBasis, m.decisionBasis)
    ensures SameDecision(m.decision, m.decision) && SameTextMap(m.evidenceHashes, m.evidenceHashes)
    ensures SameOption(m.freezeId, m.freezeId) && SameOption(m.revocationOperationId, m.revocationOperationId)
    ensures forall s :: T.SameSpelt(s, s)
  {
    hide T.IsTimestamp;
  }

  lemma UnchangedRest(k: Crypto, authority: map<string, set<string>>, genuine: Package, p: Package)
    requires Proven(k, authority, genuine) && ReSpelt(genuine.manifest, p.manifest)
    requires p == genuine.(manifest := genuine.manifest.(observations := p.manifest.observations))
    ensures Harmless(p, genuine)
  {
    hide Signable, ManifestBytes, Respected, IsEnvelope, ReSpelt, Adjudicate, EvidenceOk, Ids;
    RulingAgrees(p, genuine);
  }

  /** A manifest with an observation whose declared agent raises can be neither signed nor verified. */
  lemma UnreadableAgentCannotBeSigned(m: Manifest, o: Observation)
    requires o in m.observations && T.Normalize(o.declaredUserAgent) == T.Raises
    ensures !Signable(m)
  {
    UnreadableAgent(o);
    UnsignedManifest(m);
    ManifestBack(m);
    hide *;
    KeysAreDistinct();
    ManifestKeyCount();
    RaisingItem(m.observations, o);
    RaisingField(MANIFEST_KEYS, ManifestValues(m), 9);
    SignableIs(m);
  }

  lemma ManifestKeyCount()
    ensures |MANIFEST_KEYS| == 16
  {
  }

  lemma SignableIs(m: Manifest)
    ensures Signable(m) <==> T.Accepted(Unsigned(ManifestDoc(m)))
  {
    hide T.Accepted, ManifestDoc;
  }

  lemma RaisingField(keys: seq<string>, values: seq<T.Value>, i: nat)
    requires |keys| == |values| && Distinct(keys) && i < |keys| && !T.Accepted(values[i])
    ensures !T.Accepted(T.Object(Named(keys, values)))
  {
    hide Named, Distinct;
    FieldOf(keys, values, i);
  }

  lemma UnreadableAgent(o: Observation)
    requires T.Normalize(o.declaredUserAgent) == T.Raises
    ensures !T.Accepted(ObservationDoc(o))
  {
    KeysAreDistinct();
    assert |OBSERVATION_KEYS| == 6 && ObservationValues(o)[0] == T.Str(o.declaredUserAgent);
    hide T.Normalize, Named, Distinct, OBSERVATION_KEYS, ObservationValues;
    RaisingField(OBSERVATION_KEYS, ObservationValues(o), 0);
  }

  lemma RaisingItem(observations: seq<Observation>, o: Observation)
    requires o in observations && !T.Accepted(ObservationDoc(o))
    ensures !T.Accepted(ObservationDocs(observations))
  {
    hide ObservationDoc;
    var i :| 0 <= i < |observations| && observations[i] == o;
    var docs := ObservationDocs(observations);
    assert docs.items[i] == ObservationDoc(o) && docs.items[i] in docs.items;
  }

  // ------------------------------------------------------------------
  // A package exported from a well-recorded incident
  // ------------------------------------------------------------------

  /**
   * What a completed run leaves behind: one observation, hashed; assertions each within authority and bound by hash;
   * the decision taken on them before any REVOCATION_INITIATED was appended; the signature over the rest.
   */
  ghost predicate WellRecorded(k: Crypto, authority: map<string, set<string>>, signer: Option<Signer>,
                               r: IncidentResult) {
    && |r.observations| == 1
    && r.manifest.evidenceHashes
      == map[r.observations[0].observationId := k.hash(ObservationBytes(r.observations[0]))]
    && r.manifest.assertionsHash == k.hash(AssertionsBytes(r.assertions))
    && AllRespected(authority, r.assertions)
    && DecidedOn(r.manifest.decision, r.manifest.incidentId, r.assertions)
    && r.manifest.previousEventHash != ""
    && Signable(r.manifest)
    && r.manifest.signature
      == SignatureFor(signer, "incident_manifest", r.manifest.incidentId, ManifestBytes(r.manifest))
  }

  /** The decision was taken on the assertions, or on all but a final REVOCATION_INITIATED. */
  ghost predicate DecidedOn(d: Decision, incidentId: string, assertions: seq<Assertion>) {
    || d == Adjudicate(assertions, incidentId, d.decisionId, d.decidedAt)
    || (assertions != [] && assertions[|assertions| - 1].assertionClass == RevocationInitiated
        && d == Adjudicate(assertions[..|assertions| - 1], incidentId, d.decisionId, d.decidedAt))
  }

  /**
   * A well-recorded incident exports a package whose content checks all pass; the signature check passes exactly when
   * it was signed.
   */
  lemma ExportedPackageVerifies(k: Crypto, authority: map<string, set<string>>, signer: Option<Signer>,
                                r: IncidentResult, publicKey: Option<string>)
    requires WellRecorded(k, authority, signer, r)
    requires signer.Some? ==> Works(k, signer.value) && (publicKey.None? || publicKey == Some(signer.value.pem))
    ensures var out := ExportPackage(k, signer, r, publicKey);
      out.Some? && Signable(out.value.manifest) && SelfConsistent(k, authority, out.value)
        && (SignatureOk(k, out.value) <==> signer.Some?)
  {
    hide Signable, ManifestBytes, ObservationBytes, AssertionsBytes, Adjudicate, IsEnvelope, DecidedOn, AllRespected,
         BoundaryOk, SignatureFor, Placeholder;
    RecordedDecisionReproduces(r.manifest, r.assertions);
    SignedIff(k, signer, r.manifest.incidentId, ManifestBytes(r.manifest));
    OneObservation(k, r.manifest, r.observations);
  }

  lemma SignedIff(k: Crypto, signer: Option<Signer>, incidentId: string, payload: string)
    requires signer.Some? ==> Works(k, signer.value)
    ensures IsEnvelope(SignatureFor(signer, "incident_manifest", incidentId, payload)) <==> signer.Some?
    ensures signer.Some? ==>
      signer.value.pem != ""
        && k.verify(signer.value.pem, SignatureFor(signer, "incident_manifest", incidentId, payload), payload)
  {
    PlaceholderIsNoEnvelope("incident_manifest", incidentId);
  }

  lemma OneObservation(k: Crypto, m: Manifest, observations: seq<Observation>)
    requires |observations| == 1
    requires m.evidenceHashes == map[observations[0].observationId := k.hash(ObservationBytes(observations[0]))]
    ensures AllEvidence(k, m, observations) && m.evidenceHashes.Keys <= Ids(observations)
  {
    hide ObservationBytes;
    assert observations[0] in observations;
  }

  lemma RecordedDecisionReproduces(m: Manifest, assertions: seq<Assertion>)
    requires DecidedOn(m.decision, m.incidentId, assertions)
    ensures m.decision == Adjudicate(assertions, m.incidentId, m.decision.decisionId, m.decision.decidedAt)
    ensures BoundaryOk(m)
  {
    hide Adjudicate;
    var d := m.decision;
    if d != Adjudicate(assertions, m.incidentId, d.decisionId, d.decidedAt) {
      var n := |assertions| - 1;
      assert assertions == assertions[..n] + [assertions[n]];
      RevocationInitiatedChangesNothing(assertions[..n], assertions[n], m.incidentId, d.decisionId, d.decidedAt);
    }
    EveryDecisionKeepsTheBoundary(assertions, m.incidentId, d.decisionId, d.decidedAt);
  }
}
