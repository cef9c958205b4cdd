/** The incident record as the JSON documents it is hashed and signed as, and what their bytes tell apart. */
module Documents {
  import opened Scopes
  import opened Adjudication
  import opened Effects
  import opened Timestamps
  import opened CanonicalJson

  datatype Observation = Observation(
    observationId: string,
    workId: string,
    declaredUserAgent: string,
    path: string,
    observedAt: Instant,
    detail: string)

  datatype Manifest = Manifest(
    incidentId: string,
    workId: string,
    subjectPrincipal: string,
    observations: seq<Observation>,
    evidenceHashes: map<string, string>,
    assertionsHash: string,
    policyVersion: string,
    grantStateBasis: string,
    decision: Decision,
    decisionBasis: seq<string>,
    agentsInvolved: seq<string>,
    freezeId: Option<string>,
    revocationOperationId: Option<string>,
    openedAt: Instant,
    closedAt: Instant,
    previousEventHash: string,
    signingKeyVersion: string,
    signature: string)

  /** Hashing and signature verification: kept abstract. */
  datatype Crypto = Crypto(hash: string -> string, verify: (string, string, string) -> bool)

  /** A digest never has the shape of a timestamp: sixty-four hexadecimal digits hold no hyphen. */
  ghost predicate PlainDigests(k: Crypto) {
    forall a :: !IsTimestamp(k.hash(a))
  }

  /** The text of an instant: its canonical timestamp. Instants no datetime reaches are written as signed numbers. */
  function Stamp(i: Instant): string {
    if InRange(i) then Render(i) else if i < 0 then "-" + Decimal(-i) else "+" + Decimal(i)
  }

  lemma StampsApart(i: Instant, j: Instant)
    requires SameSpelt(Stamp(i), Stamp(j))
    ensures i == j
  {
    StampIsRead(i);
    StampIsRead(j);
    hide IsTimestamp, Read, Render;
    if !InRange(i) && !InRange(j) {
      var m, n := if i < 0 then -i else i, if j < 0 then -j else j;
      assert Stamp(i)[1..] == Decimal(m) && Stamp(j)[1..] == Decimal(n);
      DecimalInjective(m, n);
    }
  }

  lemma StampIsRead(i: Instant)
    ensures IsTimestamp(Stamp(i)) <==> InRange(i)
    ensures InRange(i) ==> InstantOf(Read(Stamp(i))) == i
    ensures !InRange(i) ==> Stamp(i) != "" && Stamp(i)[0] == if i < 0 then '-' else '+'
  {
    if InRange(i) {
      ReadOfRender(i);
    }
  }

  // ------------------------------------------------------------------
  // Objects from field lists
  // ------------------------------------------------------------------

  predicate Distinct(keys: seq<string>) {
    forall i, j :: 0 <= i < j < |keys| ==> keys[i] != keys[j]
  }

  /** The members of an object, field by field. */
  function Named(keys: seq<string>, values: seq<Value>): (r: map<string, Value>)
    requires |keys| == |values|
    ensures forall k :: k in r <==> k in keys
  {
    if keys == [] then map[]
    else
      var n := |keys| - 1;
      assert keys == keys[..n] + [keys[n]];
      Named(keys[..n], values[..n])[keys[n] := values[n]]
  }

  lemma {:induction false} FieldOf(keys: seq<string>, values: seq<Value>, i: nat)
    requires |keys| == |values| && Distinct(keys) && i < |keys|
    ensures keys[i] in Named(keys, values) && Named(keys, values)[keys[i]] == values[i]
  {
    var n := |keys| - 1;
    assert keys[i] in keys;
    assert Named(keys, values) == Named(keys[..n], values[..n])[keys[n] := values[n]];
    hide Named;
    if i < n {
      FieldOf(keys[..n], values[..n], i);
    }
  }

  ghost predicate AllSame(v: seq<Value>, w: seq<Value>) {
    |v| == |w| && forall i :: 0 <= i < |v| ==> SameDocument(v[i], w[i])
  }

  /** The first n values are re-spellings, one after another. */
  predicate SameUpTo(v: seq<Value>, w: seq<Value>, n: nat)
    requires n <= |v| && n <= |w|
    decreases n
  {
    n == 0 || (SameUpTo(v, w, n - 1) && SameDocument(v[n - 1], w[n - 1]))
  }

  lemma {:induction false} SameUpToIff(v: seq<Value>, w: seq<Value>, n: nat)
    requires n <= |v| && n <= |w|
    ensures SameUpTo(v, w, n) <==> forall i :: 0 <= i < n ==> SameDocument(v[i], w[i])
  {
    hide SameDocument;
    if n > 0 {
      SameUpToIff(v, w, n - 1);
    }
  }

  lemma AllSameIff(v: seq<Value>, w: seq<Value>, n: nat)
    requires |v| == |w| == n
    ensures AllSame(v, w) <==> SameUpTo(v, w, n)
  {
    hide SameDocument, SameUpTo;
    SameUpToIff(v, w, n);
  }

  /** Two objects over one field list are re-spellings, or equal, exactly when they are so field by field. */
  lemma ObjectsAgree(keys: seq<string>, v: seq<Value>, w: seq<Value>)
    requires |keys| == |v| == |w| && Distinct(keys)
    ensures SameDocument(Object(Named(keys, v)), Object(Named(keys, w))) <==> AllSame(v, w)
    ensures Named(keys, v) == Named(keys, w) <==> v == w
  {
    hide SameDocument, Named;
    forall i | 0 <= i < |keys|
      ensures keys[i] in Named(keys, v) && Named(keys, v)[keys[i]] == v[i]
      ensures keys[i] in Named(keys, w) && Named(keys, w)[keys[i]] == w[i]
    {
      FieldOf(keys, v, i);
      FieldOf(keys, w, i);
    }
    ObjectsSame(Named(keys, v), Named(keys, w));
    assert forall k :: k in Named(keys, v) ==> exists i :: 0 <= i < |keys| && keys[i] == k;
    if Named(keys, v) == Named(keys, w) {
      assert forall i :: 0 <= i < |keys| ==> v[i] == w[i];
    }
  }

  lemma ObjectsSame(v: map<string, Value>, w: map<string, Value>)
    ensures SameDocument(Object(v), Object(w)) <==> v.Keys == w.Keys && forall k :: k in v ==> SameDocument(v[k], w[k])
  {
  }

  // ------------------------------------------------------------------
  // The documents
  // ------------------------------------------------------------------

  const OBSERVATION_KEYS := ["declared_user_agent", "detail", "observation_id", "observed_at", "path", "work_id"]
  const ASSERTION_KEYS :=
    ["asserted_by_role", "assertion_class", "assertion_id", "basis", "subject_principal", "subject_work_id"]
  const FINDING_KEYS := ["basis", "claim", "status"]
  const DECISION_KEYS := ["decided_at", "decision_id", "findings", "incident_id", "not_determinable", "policy_version"]
  const CONTAINMENT_KEYS := ["negotiation_freeze", "revocation_operation_id"]
  const MANIFEST_KEYS := [
    "agents_involved", "assertions_hash", "closed_at", "containment", "decision", "decision_basis", "evidence_hashes",
    "grant_state_basis", "incident_id", "observations", "opened_at", "policy_version", "previous_event_hash",
    "signing_key_version", "subject_principal", "work_id"]

  lemma KeysAreDistinct()
    ensures Distinct(OBSERVATION_KEYS) && Distinct(ASSERTION_KEYS) && Distinct(FINDING_KEYS) && Distinct(DECISION_KEYS)
    ensures Distinct(CONTAINMENT_KEYS) && Distinct(MANIFEST_KEYS) && "signature" !in MANIFEST_KEYS
  {
    ShortKeysAreDistinct();
    ManifestKeysAreDistinct();
  }

  lemma ShortKeysAreDistinct()
    ensures Distinct(OBSERVATION_KEYS) && Distinct(ASSERTION_KEYS) && Distinct(FINDING_KEYS) && Distinct(DECISION_KEYS)
    ensures Distinct(CONTAINMENT_KEYS)
  {
    assert |"detail"| == 6;
  }

  lemma ManifestKeysAreDistinct()
    ensures Distinct(MANIFEST_KEYS) && "signature" !in MANIFEST_KEYS
  {
    assert |"signature"| == 9;
  }

  function Texts(s: seq<string>): Value {
    Items(seq(|s|, i requires 0 <= i < |s| => Str(s[i])))
  }

  function OptionalText(o: Option<string>): Value {
    if o.None? then Other("null") else Str(o.value)
  }

  function TextMap(m: map<string, string>): Value {
    Object(map k | k in m :: Str(m[k]))
  }

  function ObservationValues(o: Observation): (r: seq<Value>)
    ensures |r| == |OBSERVATION_KEYS|
  {
    [Str(o.declaredUserAgent), Str(o.detail), Str(o.observationId), Str(Stamp(o.observedAt)), Str(o.path),
     Str(o.workId)]
  }

  function ObservationDoc(o: Observation): Value {
    Object(Named(OBSERVATION_KEYS, ObservationValues(o)))
  }

  function ObservationDocs(s: seq<Observation>): Value {
    Items(seq(|s|, i requires 0 <= i < |s| => ObservationDoc(s[i])))
  }

  function AssertionValues(a: Assertion): (r: seq<Value>)
    ensures |r| == |ASSERTION_KEYS|
  {
    [Str(a.assertedByRole), Str(ClassName(a.assertionClass)), Str(a.assertionId), Str(a.basis), Str(a.subjectPrincipal),
     Str(a.subjectWorkId)]
  }

  function AssertionDoc(a: Assertion): Value {
    Object(Named(ASSERTION_KEYS, AssertionValues(a)))
  }

  function AssertionDocs(s: seq<Assertion>): Value {
    Items(seq(|s|, i requires 0 <= i < |s| => AssertionDoc(s[i])))
  }

  function ClaimName(c: Claim): string {
    match c
    case AccessOutsideDeclaredPolicy => "ACCESS_OUTSIDE_DECLARED_POLICY"
    case AccessWithinDeclaredPolicy => "ACCESS_WITHIN_DECLARED_POLICY"
  }

  function StatusText(established: bool): string {
    if established then "ESTABLISHED" else "NOT_ESTABLISHED"
  }

  function FindingValues(f: Finding): (r: seq<Value>)
    ensures |r| == |FINDING_KEYS|
  {
    [Texts(f.basis), Str(ClaimName(f.claim)), Str(StatusText(f.established))]
  }

  function FindingDoc(f: Finding): Value {
    Object(Named(FINDING_KEYS, FindingValues(f)))
  }

  function FindingDocs(s: seq<Finding>): Value {
    Items(seq(|s|, i requires 0 <= i < |s| => FindingDoc(s[i])))
  }

  function DecisionValues(d: Decision): (r: seq<Value>)
    ensures |r| == |DECISION_KEYS|
  {
    [Str(Stamp(d.decidedAt)), Str(d.decisionId), FindingDocs(d.findings), Str(d.incidentId),
     TextMap(d.notDeterminable), Str(d.policyVersion)]
  }

  function DecisionDoc(d: Decision): Value {
    Object(Named(DECISION_KEYS, DecisionValues(d)))
  }

  function ContainmentDoc(freezeId: Option<string>, operationId: Option<string>): Value {
    Object(Named(CONTAINMENT_KEYS, [OptionalText(freezeId), OptionalText(operationId)]))
  }

  /** The manifest's members but for its signature. */
  function ManifestValues(m: Manifest): (r: seq<Value>)
    ensures |r| == |MANIFEST_KEYS|
  {
    [Texts(m.agentsInvolved), Str(m.assertionsHash), Str(Stamp(m.closedAt)),
     ContainmentDoc(m.freezeId, m.revocationOperationId),
     DecisionDoc(m.decision), Texts(m.decisionBasis), TextMap(m.evidenceHashes), Str(m.grantStateBasis),
     Str(m.incidentId), ObservationDocs(m.observations), Str(Stamp(m.openedAt)), Str(m.policyVersion),
     Str(m.previousEventHash), Str(m.signingKeyVersion), Str(m.subjectPrincipal), Str(m.workId)]
  }

  function ManifestDoc(m: Manifest): map<string, Value> {
    Named(MANIFEST_KEYS, ManifestValues(m))["signature" := Str(m.signature)]
  }

  // ------------------------------------------------------------------
  // Their bytes
  // ------------------------------------------------------------------

  /** Observations and assertions are hashed as they stand. */
  function ObservationBytes(o: Observation): string {
    Json(ObservationDoc(o))
  }

  function AssertionsBytes(s: seq<Assertion>): string {
    Json(AssertionDocs(s))
  }

  /** Building the bytes a manifest is signed over does not raise. */
  predicate Signable(m: Manifest) {
    Accepted(Unsigned(ManifestDoc(m)))
  }

  /**
   * The bytes a manifest is hashed and signed over: its document without the signature, every timestamp in it
   * normalised.
   */
  function ManifestBytes(m: Manifest): string
    requires Signable(m)
  {
    SignableBytes(ManifestDoc(m))
  }

  lemma UnsignedManifest(m: Manifest)
    ensures Unsigned(ManifestDoc(m)) == Object(Named(MANIFEST_KEYS, ManifestValues(m)))
  {
    KeysAreDistinct();
    hide ManifestValues;
    var fields := Named(MANIFEST_KEYS, ManifestValues(m));
    assert "signature" !in fields;
    assert fields["signature" := Str(m.signature)] - {"signature"} == fields;
  }

  /** The signature is no part of what is signed. */
  lemma SignatureIsLeftOut(m: Manifest, signature: string)
    ensures Unsigned(ManifestDoc(m.(signature := signature))) == Unsigned(ManifestDoc(m))
  {
    UnsignedManifest(m);
    UnsignedManifest(m.(signature := signature));
  }

  lemma SignatureChangesNothing(m: Manifest, signature: string)
    requires Signable(m)
    ensures Signable(m.(signature := signature)) && ManifestBytes(m.(signature := signature)) == ManifestBytes(m)
  {
    SignatureIsLeftOut(m, signature);
    hide ManifestDoc, Json, Unsigned, Accepted;
  }

  // ------------------------------------------------------------------
  // Re-spellings, record by record
  // ------------------------------------------------------------------

  predicate SameTexts(a: seq<string>, b: seq<string>) {
    |a| == |b| && forall i :: 0 <= i < |a| ==> SameSpelt(a[i], b[i])
  }

  predicate SameOption(a: Option<string>, b: Option<string>) {
    a == b || (a.Some? && b.Some? && SameSpelt(a.value, b.value))
  }

  predicate SameTextMap(a: map<string, string>, b: map<string, string>) {
    a.Keys == b.Keys && forall k :: k in a ==> SameSpelt(a[k], b[k])
  }

  predicate SameObservation(a: Observation, b: Observation) {
    && SameSpelt(a.declaredUserAgent, b.declaredUserAgent) && SameSpelt(a.detail, b.detail)
    && SameSpelt(a.observationId, b.observationId)
    && a.observedAt == b.observedAt && SameSpelt(a.path, b.path) && SameSpelt(a.workId, b.workId)
  }

  predicate SameObservations(a: seq<Observation>, b: seq<Observation>) {
    |a| == |b| && forall i :: 0 <= i < |a| ==> SameObservation(a[i], b[i])
  }

  predicate SameFinding(a: Finding, b: Finding) {
    a.claim == b.claim && a.established == b.established && SameTexts(a.basis, b.basis)
  }

  predicate SameFindings(a: seq<Finding>, b: seq<Finding>) {
    |a| == |b| && forall i :: 0 <= i < |a| ==> SameFinding(a[i], b[i])
  }

  predicate SameDecision(a: Decision, b: Decision) {
    && a.decidedAt == b.decidedAt && SameSpelt(a.decisionId, b.decisionId) && SameFindings(a.findings, b.findings)
    && SameSpelt(a.incidentId, b.incidentId) && SameTextMap(a.notDeterminable, b.notDeterminable)
    && SameSpelt(a.policyVersion, b.policyVersion)
  }

  /** The two manifests differ, signature apart, at most in how strings that are timestamps are spelt. */
  predicate ReSpelt(a: Manifest, b: Manifest) {
    && SameTexts(a.agentsInvolved, b.agentsInvolved) && SameSpelt(a.assertionsHash, b.assertionsHash)
    && a.closedAt == b.closedAt
    && SameOption(a.freezeId, b.freezeId) && SameOption(a.revocationOperationId, b.revocationOperationId)
    && SameDecision(a.decision, b.decision) && SameTexts(a.decisionBasis, b.decisionBasis)
    && SameTextMap(a.evidenceHashes, b.evidenceHashes) && SameSpelt(a.grantStateBasis, b.grantStateBasis)
    && SameSpelt(a.incidentId, b.incidentId) && SameObservations(a.observations, b.observations)
    && a.openedAt == b.openedAt
    && SameSpelt(a.policyVersion, b.policyVersion) && SameSpelt(a.previousEventHash, b.previousEventHash)
    && SameSpelt(a.signingKeyVersion, b.signingKeyVersion) && SameSpelt(a.subjectPrincipal, b.subjectPrincipal)
    && SameSpelt(a.workId, b.workId)
  }

  lemma TextIff(a: string, b: string)
    ensures SameDocument(Str(a), Str(b)) <==> SameSpelt(a, b)
  {
  }

  lemma TextsIff(a: seq<string>, b: seq<string>)
    ensures SameDocument(Texts(a), Texts(b)) <==> SameTexts(a, b)
  {
    hide SameSpelt;
    assert forall i :: 0 <= i < |a| ==> Texts(a).items[i] == Str(a[i]);
    assert forall i :: 0 <= i < |b| ==> Texts(b).items[i] == Str(b[i]);
  }

  lemma OptionIff(a: Option<string>, b: Option<string>)
    ensures SameDocument(OptionalText(a), OptionalText(b)) <==> SameOption(a, b)
  {
  }

  lemma TextMapIff(a: map<string, string>, b: map<string, string>)
    ensures SameDocument(TextMap(a), TextMap(b)) <==> SameTextMap(a, b)
  {
    hide SameSpelt;
    assert TextMap(a).fields.Keys == a.Keys && TextMap(b).fields.Keys == b.Keys;
    assert forall k :: k in a ==> TextMap(a).fields[k] == Str(a[k]);
    assert forall k :: k in b ==> TextMap(b).fields[k] == Str(b[k]);
  }

  lemma StampIff(i: Instant, j: Instant)
    ensures SameDocument(Str(Stamp(i)), Str(Stamp(j))) <==> i == j
    ensures Stamp(i) == Stamp(j) <==> i == j
  {
    hide IsTimestamp, Stamp;
    if SameSpelt(Stamp(i), Stamp(j)) {
      StampsApart(i, j);
    }
  }

  lemma ObservationValuesIff(a: Observation, b: Observation)
    ensures AllSame(ObservationValues(a), ObservationValues(b)) <==> SameObservation(a, b)
  {
    StampIff(a.observedAt, b.observedAt);
    TextIff(a.declaredUserAgent, b.declaredUserAgent);
    TextIff(a.detail, b.detail);
    TextIff(a.observationId, b.observationId);
    TextIff(a.path, b.path);
    TextIff(a.workId, b.workId);
    hide SameSpelt, AllSame, SameDocument;
    AllSameIff(ObservationValues(a), ObservationValues(b), 6);
  }

  lemma ObservationValuesEqual(a: Observation, b: Observation)
    requires ObservationValues(a) == ObservationValues(b)
    ensures a == b
  {
    StampIff(a.observedAt, b.observedAt);
    hide SameDocument, OBSERVATION_KEYS;
    var v, w := ObservationValues(a), ObservationValues(b);
    assert v[0] == w[0] && v[1] == w[1] && v[2] == w[2] && v[3] == w[3] && v[4] == w[4] && v[5] == w[5];
  }

  lemma ObservationIff(a: Observation, b: Observation)
    ensures SameDocument(ObservationDoc(a), ObservationDoc(b)) <==> SameObservation(a, b)
    ensures ObservationDoc(a) == ObservationDoc(b) <==> a == b
  {
    KeysAreDistinct();
    ObservationValuesIff(a, b);
    if ObservationValues(a) == ObservationValues(b) {
      ObservationValuesEqual(a, b);
    }
    hide Named, Distinct, SameDocument, AllSame, SameObservation, ObservationValues, OBSERVATION_KEYS;
    ObjectsAgree(OBSERVATION_KEYS, ObservationValues(a), ObservationValues(b));
  }

  lemma ObservationsIff(a: seq<Observation>, b: seq<Observation>)
    ensures SameDocument(ObservationDocs(a), ObservationDocs(b)) <==> SameObservations(a, b)
  {
    hide ObservationDoc, SameObservation;
    var v, w := ObservationDocs(a).items, ObservationDocs(b).items;
    assert forall i :: 0 <= i < |a| ==> v[i] == ObservationDoc(a[i]);
    assert forall i :: 0 <= i < |b| ==> w[i] == ObservationDoc(b[i]);
    forall i | 0 <= i < |a| && |a| == |b| ensures SameDocument(v[i], w[i]) <==> SameObservation(a[i], b[i]) {
      ObservationIff(a[i], b[i]);
    }
    ItemsSame(v, w);
  }

  lemma ItemsSame(v: seq<Value>, w: seq<Value>)
    ensures SameDocument(Items(v), Items(w)) <==> AllSame(v, w)
  {
  }

  lemma ClassNamesDiffer(a: AssertionClass, b: AssertionClass)
    requires ClassName(a) == ClassName(b)
    ensures a == b
  {
    assert |"OBSERVED_HTTP_ACCESS"| == 20 && |"GRANT_EXISTED"| == 13 && |"GRANT_DID_NOT_EXIST"| == 19;
    assert |"ACCESS_INCONSISTENT_WITH_SCOPE"| == 30 && |"REVOCATION_INITIATED"| == 20
      && |"ACCESS_DOES_NOT_ESTABLISH_TRAINING"| == 34;
    assert "OBSERVED_HTTP_ACCESS"[0] == 'O' && "REVOCATION_INITIATED"[0] == 'R';
  }

  lemma AssertionEqual(a: Assertion, b: Assertion)
    requires AssertionDoc(a) == AssertionDoc(b)
    ensures a == b
  {
    KeysAreDistinct();
    ObjectsAgree(ASSERTION_KEYS, AssertionValues(a), AssertionValues(b));
    hide SameDocument, AllSame, Named, Distinct, ASSERTION_KEYS;
    var v, w := AssertionValues(a), AssertionValues(b);
    assert v[0] == w[0] && v[1] == w[1] && v[2] == w[2] && v[3] == w[3] && v[4] == w[4] && v[5] == w[5];
    ClassNamesDiffer(a.assertionClass, b.assertionClass);
  }

  /** The bytes observations and assertions are hashed over tell them apart. */
  lemma HashedBytesTellApart()
    ensures forall a, b :: ObservationBytes(a) == ObservationBytes(b) ==> a == b
    ensures forall a, b :: AssertionsBytes(a) == AssertionsBytes(b) ==> a == b
  {
    hide ObservationDoc, AssertionDoc, AssertionDocs, SameSpelt, Json;
    forall a, b | ObservationBytes(a) == ObservationBytes(b) ensures a == b {
      JsonTellsApart(ObservationDoc(a), ObservationDoc(b));
      ObservationIff(a, b);
    }
    forall a, b | AssertionsBytes(a) == AssertionsBytes(b) ensures a == b {
      JsonTellsApart(AssertionDocs(a), AssertionDocs(b));
      AssertionsEqual(a, b);
    }
  }

  lemma AssertionsEqual(a: seq<Assertion>, b: seq<Assertion>)
    requires AssertionDocs(a) == AssertionDocs(b)
    ensures a == b
  {
    hide AssertionDoc;
    var v, w := AssertionDocs(a).items, AssertionDocs(b).items;
    assert |v| == |a| && |w| == |b|;
    forall i | 0 <= i < |a| ensures a[i] == b[i] {
      assert v[i] == AssertionDoc(a[i]) && w[i] == AssertionDoc(b[i]);
      AssertionEqual(a[i], b[i]);
    }
  }

  lemma ConstantsAreNoTimestamps(c: Claim, established: bool)
    ensures !IsTimestamp(ClaimName(c)) && !IsTimestamp(StatusText(established))
  {
    assert "ACCESS_OUTSIDE_DECLARED_POLICY"[4] == 'S' && "ACCESS_WITHIN_DECLARED_POLICY"[4] == 'S';
    assert |"ESTABLISHED"| == 11 && |"NOT_ESTABLISHED"| == 15;
  }

  lemma ConstantsIff(c: Claim, d: Claim, x: bool, y: bool)
    ensures SameSpelt(ClaimName(c), ClaimName(d)) <==> c == d
    ensures SameSpelt(StatusText(x), StatusText(y)) <==> x == y
  {
    ConstantsAreNoTimestamps(c, x);
    hide IsTimestamp, Read;
    assert |"ACCESS_OUTSIDE_DECLARED_POLICY"| == 30 && |"ACCESS_WITHIN_DECLARED_POLICY"| == 29;
    assert |"ESTABLISHED"| == 11 && |"NOT_ESTABLISHED"| == 15;
  }

  lemma FindingIff(a: Finding, b: Finding)
    ensures SameDocument(FindingDoc(a), FindingDoc(b)) <==> SameFinding(a, b)
  {
    KeysAreDistinct();
    TextsIff(a.basis, b.basis);
    TextIff(ClaimName(a.claim), ClaimName(b.claim));
    TextIff(StatusText(a.established), StatusText(b.established));
    ConstantsIff(a.claim, b.claim, a.established, b.established);
    hide SameSpelt, SameTexts, Texts, AllSame, SameDocument, Named, Distinct, ClaimName, StatusText;
    AllSameIff(FindingValues(a), FindingValues(b), 3);
    hide FINDING_KEYS, FindingValues;
    ObjectsAgree(FINDING_KEYS, FindingValues(a), FindingValues(b));
  }

  lemma FindingsIff(a: seq<Finding>, b: seq<Finding>)
    ensures SameDocument(FindingDocs(a), FindingDocs(b)) <==> SameFindings(a, b)
  {
    hide FindingDoc, SameFinding;
    var v, w := FindingDocs(a).items, FindingDocs(b).items;
    assert forall i :: 0 <= i < |a| ==> v[i] == FindingDoc(a[i]);
    assert forall i :: 0 <= i < |b| ==> w[i] == FindingDoc(b[i]);
    forall i | 0 <= i < |a| && |a| == |b| ensures SameDocument(v[i], w[i]) <==> SameFinding(a[i], b[i]) {
      FindingIff(a[i], b[i]);
    }
    ItemsSame(v, w);
  }

  lemma DecisionValuesIff(a: Decision, b: Decision)
    ensures AllSame(DecisionValues(a), DecisionValues(b)) <==> SameDecision(a, b)
  {
    StampIff(a.decidedAt, b.decidedAt);
    TextIff(a.decisionId, b.decisionId);
    TextIff(a.incidentId, b.incidentId);
    TextIff(a.policyVersion, b.policyVersion);
    FindingsIff(a.findings, b.findings);
    TextMapIff(a.notDeterminable, b.notDeterminable);
    hide SameSpelt, AllSame, SameDocument, FindingDocs, TextMap, SameFindings, SameTextMap;
    AllSameIff(DecisionValues(a), DecisionValues(b), 6);
  }

  lemma DecisionIff(a: Decision, b: Decision)
    ensures SameDocument(DecisionDoc(a), DecisionDoc(b)) <==> SameDecision(a, b)
  {
    KeysAreDistinct();
    DecisionValuesIff(a, b);
    hide Named, Distinct, SameDocument, AllSame, SameDecision, DecisionValues, DECISION_KEYS;
    ObjectsAgree(DECISION_KEYS, DecisionValues(a), DecisionValues(b));
  }

  lemma ContainmentIff(f: Option<string>, g: Option<string>, x: Option<string>, y: Option<string>)
    ensures SameDocument(ContainmentDoc(f, x), ContainmentDoc(g, y)) <==> SameOption(f, g) && SameOption(x, y)
  {
    KeysAreDistinct();
    OptionIff(f, g);
    OptionIff(x, y);
    var v, w := [OptionalText(f), OptionalText(x)], [OptionalText(g), OptionalText(y)];
    assert |CONTAINMENT_KEYS| == 2;
    hide SameSpelt, SameOption, OptionalText, AllSame, SameDocument, Named, Distinct, CONTAINMENT_KEYS;
    AllSameIff(v, w, 2);
    ObjectsAgree(CONTAINMENT_KEYS, v, w);
  }

  lemma ManifestPartsIff(a: Manifest, b: Manifest)
    ensures SameDocument(Texts(a.agentsInvolved), Texts(b.agentsInvolved)) <==>
      SameTexts(a.agentsInvolved, b.agentsInvolved)
    ensures SameDocument(Texts(a.decisionBasis), Texts(b.decisionBasis)) <==>
      SameTexts(a.decisionBasis, b.decisionBasis)
    ensures SameDocument(TextMap(a.evidenceHashes), TextMap(b.evidenceHashes)) <==>
      SameTextMap(a.evidenceHashes, b.evidenceHashes)
    ensures SameDocument(DecisionDoc(a.decision), DecisionDoc(b.decision)) <==>
      SameDecision(a.decision, b.decision)
    ensures SameDocument(ObservationDocs(a.observations), ObservationDocs(b.observations)) <==>
      SameObservations(a.observations, b.observations)
    ensures SameDocument(ContainmentDoc(a.freezeId, a.revocationOperationId),
                         ContainmentDoc(b.freezeId, b.revocationOperationId))
      <==> SameOption(a.freezeId, b.freezeId) && SameOption(a.revocationOperationId, b.revocationOperationId)
    ensures SameDocument(Str(Stamp(a.openedAt)), Str(Stamp(b.openedAt))) <==> a.openedAt == b.openedAt
    ensures SameDocument(Str(Stamp(a.closedAt)), Str(Stamp(b.closedAt))) <==> a.closedAt == b.closedAt
  {
    hide *;
    TextsIff(a.agentsInvolved, b.agentsInvolved);
    TextsIff(a.decisionBasis, b.decisionBasis);
    TextMapIff(a.evidenceHashes, b.evidenceHashes);
    DecisionIff(a.decision, b.decision);
    ObservationsIff(a.observations, b.observations);
    ContainmentIff(a.freezeId, b.freezeId, a.revocationOperationId, b.revocationOperationId);
    StampIff(a.openedAt, b.openedAt);
    StampIff(a.closedAt, b.closedAt);
  }

  lemma ManifestFront(m: Manifest)
    ensures var v := ManifestValues(m);
      && |v| == 16 && v[0] == Texts(m.agentsInvolved) && v[1] == Str(m.assertionsHash)
      && v[2] == Str(Stamp(m.closedAt)) && v[3] == ContainmentDoc(m.freezeId, m.revocationOperationId)
    ensures var v := ManifestValues(m);
      && |v| == 16 && v[4] == DecisionDoc(m.decision) && v[5] == Texts(m.decisionBasis)
      && v[6] == TextMap(m.evidenceHashes) && v[7] == Str(m.grantStateBasis)
  {
    hide Texts, TextMap, DecisionDoc, ObservationDocs, ContainmentDoc, Stamp, MANIFEST_KEYS;
  }

  lemma ManifestBack(m: Manifest)
    ensures var v := ManifestValues(m);
      && |v| == 16 && v[8] == Str(m.incidentId) && v[9] == ObservationDocs(m.observations)
      && v[10] == Str(Stamp(m.openedAt)) && v[11] == Str(m.policyVersion)
    ensures var v := ManifestValues(m);
      && |v| == 16 && v[12] == Str(m.previousEventHash) && v[13] == Str(m.signingKeyVersion)
      && v[14] == Str(m.subjectPrincipal) && v[15] == Str(m.workId)
  {
    hide Texts, TextMap, DecisionDoc, ObservationDocs, ContainmentDoc, Stamp, MANIFEST_KEYS;
  }

  lemma ManifestValuesIff(a: Manifest, b: Manifest)
    ensures AllSame(ManifestValues(a), ManifestValues(b)) <==> ReSpelt(a, b)
  {
    TextIff(a.assertionsHash, b.assertionsHash);
    TextIff(a.grantStateBasis, b.grantStateBasis);
    TextIff(a.incidentId, b.incidentId);
    TextIff(a.policyVersion, b.policyVersion);
    TextIff(a.previousEventHash, b.previousEventHash);
    TextIff(a.signingKeyVersion, b.signingKeyVersion);
    TextIff(a.subjectPrincipal, b.subjectPrincipal);
    TextIff(a.workId, b.workId);
    ManifestPartsIff(a, b);
    ManifestFront(a);
    ManifestFront(b);
    ManifestBack(a);
    ManifestBack(b);
    hide AllSame, SameSpelt, SameTexts, SameTextMap, SameDecision, SameObservations, SameOption, SameDocument, Texts,
         TextMap, DecisionDoc, ObservationDocs, ContainmentDoc, Stamp, ManifestValues, MANIFEST_KEYS;
    var v, w := ManifestValues(a), ManifestValues(b);
    AllSameIff(v, w, 16);
    assert SameUpTo(v, w, 16) ==> SameUpTo(v, w, 12) && SameUpTo(v, w, 8) && SameUpTo(v, w, 4);
  }

  /** Two manifests are one signable document exactly when each is the other up to the spelling of timestamps. */
  lemma ManifestIff(a: Manifest, b: Manifest)
    ensures SameDocument(Unsigned(ManifestDoc(a)), Unsigned(ManifestDoc(b))) <==> ReSpelt(a, b)
  {
    KeysAreDistinct();
    UnsignedManifest(a);
    UnsignedManifest(b);
    ManifestValuesIff(a, b);
    hide Named, Distinct, SameDocument, AllSame, ReSpelt, ManifestValues, ManifestDoc, MANIFEST_KEYS;
    ObjectsAgree(MANIFEST_KEYS, ManifestValues(a), ManifestValues(b));
  }

  /** The signed bytes agree exactly on re-spellings, and a re-spelling of what can be signed can be. */
  lemma BytesAgreeIff(a: Manifest, b: Manifest)
    requires Signable(a)
    ensures ReSpelt(a, b) ==> Signable(b)
    ensures Signable(b) ==> (ManifestBytes(a) == ManifestBytes(b) <==> ReSpelt(a, b))
  {
    ManifestIff(a, b);
    hide SameDocument, Accepted, Unsigned, ManifestDoc, ReSpelt, SameSpelt;
    if ReSpelt(a, b) {
      ReSpellingIsAccepted(Unsigned(ManifestDoc(a)), Unsigned(ManifestDoc(b)));
    }
    if Signable(b) {
      SignedAlikeIff(ManifestDoc(a), ManifestDoc(b));
    }
  }
}
