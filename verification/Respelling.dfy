/** A genuine signed package and one that differs from it in the spelling of a declared agent: both verify. */
module Respelling {
  import opened Scopes
  import opened Gateway
  import opened Adjudication
  import opened Documents
  import opened CanonicalJson
  import opened Package
  import T = Timestamps

  const MARK := "ED25519-EPHEMERAL:"

  /** A hash that tells its arguments apart, and signatures that spell out what they sign. */
  function TestCrypto(): Crypto {
    Crypto(a => "sha256 " + a, (pem, envelope, payload) => envelope == MARK + payload)
  }

  function TestSigner(): Signer {
    Signer("key", "pem", payload => MARK + payload)
  }

  lemma CryptoWorks()
    ensures PlainDigests(TestCrypto()) && Works(TestCrypto(), TestSigner())
    ensures forall pem, envelope :: BindsOnePayload(TestCrypto(), pem, envelope)
    ensures forall a, b :: TestCrypto().hash(a) == TestCrypto().hash(b) ==> a == b
  {
    forall a ensures !T.IsTimestamp(TestCrypto().hash(a)) {
      PlainText(TestCrypto().hash(a));
    }
    forall a, b | TestCrypto().hash(a) == TestCrypto().hash(b) ensures a == b {
      assert TestCrypto().hash(a)[7..] == a && TestCrypto().hash(b)[7..] == b;
    }
    forall pem, envelope ensures BindsOnePayload(TestCrypto(), pem, envelope) {
      SpellsOne(pem, envelope);
    }
  }

  lemma SpellsOne(pem: string, envelope: string)
    ensures BindsOnePayload(TestCrypto(), pem, envelope)
  {
    forall p, q | TestCrypto().verify(pem, envelope, p) && TestCrypto().verify(pem, envelope, q) ensures p == q {
      assert envelope[|MARK|..] == p && envelope[|MARK|..] == q;
    }
  }

  predicate Plain(s: string) {
    s == "" || !T.IsDigit(s[0])
  }

  /** A string that does not begin with a digit neither is nor looks like a timestamp. */
  lemma PlainText(s: string)
    requires Plain(s)
    ensures !T.IsTimestamp(s) && T.Accepted(T.Str(s))
  {
    assert |s| > 1 ==> s[..|s| - 1][0] == s[0];
  }

  lemma {:induction false} NamedValue(keys: seq<string>, values: seq<T.Value>, k: string) returns (i: nat)
    requires |keys| == |values| && k in Named(keys, values)
    ensures i < |values| && Named(keys, values)[k] == values[i]
  {
    var n := |keys| - 1;
    if k == keys[n] {
      i := n;
    } else {
      assert keys == keys[..n] + [keys[n]];
      i := NamedValue(keys[..n], values[..n], k);
    }
  }

  lemma NamedAccepted(keys: seq<string>, values: seq<T.Value>)
    requires |keys| == |values| && forall x :: x in values ==> T.Accepted(x)
    ensures T.Accepted(T.Object(Named(keys, values)))
  {
    hide Named;
    forall k | k in Named(keys, values) ensures T.Accepted(Named(keys, values)[k]) {
      var i := NamedValue(keys, values, k);
      assert values[i] in values;
    }
  }

  function Seen(): Observation {
    Observation("o", "w", T.ZULU, "/", 0, "")
  }

  function Unsealed(): Manifest {
    Manifest("i", "w", "p", [Seen()], map["o" := TestCrypto().hash(ObservationBytes(Seen()))],
             TestCrypto().hash(AssertionsBytes([])), "", "", Adjudicate([], "i", "d", 0), [], [], None, None, 0, 0, "h",
                 "", "")
  }

  lemma StampAccepted()
    ensures T.Accepted(T.Str(Stamp(0)))
  {
    T.NormalizeOfRender(0);
  }

  lemma ZuluAccepted()
    ensures T.Accepted(T.Str(T.ZULU))
  {
    T.TwoSpellings();
    hide T.Read, T.Shape, T.ZULU, T.OFFSET_ZERO;
    T.RaisesIff(T.ZULU);
  }

  lemma SeenAccepted()
    ensures T.Accepted(ObservationDoc(Seen()))
  {
    var v := ObservationValues(Seen());
    assert v == [T.Str(T.ZULU), T.Str(""), T.Str("o"), T.Str(Stamp(0)), T.Str("/"), T.Str("w")];
    assert |OBSERVATION_KEYS| == |v|;
    StampAccepted();
    ZuluAccepted();
    PlainText("o");
    PlainText("w");
    PlainText("/");
    PlainText("");
    hide T.ZULU, T.Accepted, Stamp, OBSERVATION_KEYS, Seen, ObservationValues;
    NamedAccepted(OBSERVATION_KEYS, v);
    DocOf(Seen());
  }

  lemma DocOf(o: Observation)
    ensures ObservationDoc(o) == T.Object(Named(OBSERVATION_KEYS, ObservationValues(o)))
  {
  }

  lemma TextMapAccepted(m: map<string, string>)
    requires forall k :: k in m ==> Plain(m[k])
    ensures T.Accepted(TextMap(m))
  {
    hide T.Normalize;
    forall k | k in m ensures T.Accepted(TextMap(m).fields[k]) {
      PlainText(m[k]);
    }
  }

  lemma FindingAccepted(f: Finding)
    requires f.basis == []
    ensures T.Accepted(FindingDoc(f))
  {
    var v := FindingValues(f);
    assert v == [Texts([]), T.Str(ClaimName(f.claim)), T.Str(StatusText(f.established))] && |FINDING_KEYS| == 3;
    assert Texts([]) == T.Items([]) && T.Accepted(Texts([]));
    assert ClaimName(f.claim)[0] == 'A' && StatusText(f.established)[0] in {'E', 'N'};
    PlainText(ClaimName(f.claim));
    PlainText(StatusText(f.established));
    assert FindingDoc(f) == T.Object(Named(FINDING_KEYS, v));
    hide ClaimName, StatusText, T.Accepted, FINDING_KEYS, FindingValues, FindingDoc, Texts;
    NamedAccepted(FINDING_KEYS, v);
  }

  lemma FindingsAccepted(s: seq<Finding>)
    requires forall f :: f in s ==> f.basis == []
    ensures T.Accepted(FindingDocs(s))
  {
    hide FindingDoc;
    var docs := FindingDocs(s).items;
    forall x | x in docs ensures T.Accepted(x) {
      var i :| 0 <= i < |docs| && docs[i] == x;
      FindingAccepted(s[i]);
    }
  }

  lemma RulingOnNothing()
    ensures var d := Adjudicate([], "i", "d", 0);
      && d.decisionId == "d" && d.incidentId == "i" && d.policyVersion == CONSENT_POLICY && d.decidedAt == 0
      && (forall f :: f in d.findings ==> f.basis == []) && d.notDeterminable == map[TRAINING := NOT_ESTABLISHED]
  {
    assert Classes([]) == {};
  }

  lemma DecisionParts(d: Decision)
    ensures forall x :: x in DecisionValues(d) ==>
      x in [T.Str(Stamp(d.decidedAt)), T.Str(d.decisionId), FindingDocs(d.findings), T.Str(d.incidentId),
            TextMap(d.notDeterminable), T.Str(d.policyVersion)]
    ensures |DecisionValues(d)| == |DECISION_KEYS|
    ensures DecisionDoc(d) == T.Object(Named(DECISION_KEYS, DecisionValues(d)))
  {
    hide Stamp, FindingDocs, TextMap;
  }

  lemma DecisionAccepted()
    ensures T.Accepted(DecisionDoc(Adjudicate([], "i", "d", 0)))
  {
    hide *;
    var d := Adjudicate([], "i", "d", 0);
    RulingOnNothing();
    ConstantsArePlain();
    DecisionParts(d);
    StampAccepted();
    PlainText(d.decisionId);
    PlainText(d.incidentId);
    PlainText(d.policyVersion);
    TextMapAccepted(d.notDeterminable);
    FindingsAccepted(d.findings);
    NamedAccepted(DECISION_KEYS, DecisionValues(d));
  }

  lemma ConstantsArePlain()
    ensures Plain("i") && Plain("d") && Plain(CONSENT_POLICY) && Plain(NOT_ESTABLISHED)
  {
  }

  lemma NoContainmentAccepted()
    ensures T.Accepted(ContainmentDoc(None, None))
  {
    var v := [OptionalText(None), OptionalText(None)];
    assert |CONTAINMENT_KEYS| == 2;
    assert ContainmentDoc(None, None) == T.Object(Named(CONTAINMENT_KEYS, v));
    hide CONTAINMENT_KEYS, ContainmentDoc;
    NamedAccepted(CONTAINMENT_KEYS, v);
  }

  lemma SeenDocsAccepted()
    ensures T.Accepted(ObservationDocs([Seen()]))
  {
    SeenAccepted();
    hide Seen, ObservationDoc;
    var docs := ObservationDocs([Seen()]).items;
    assert docs == [ObservationDoc(Seen())];
  }

  lemma UnsealedSigns()
    ensures Signable(Unsealed())
  {
    hide *;
    var m := Unsealed();
    UnsignedManifest(m);
    UnsealedParts();
    ManifestKeyCount();
    ManifestFront(m);
    NamedAccepted(MANIFEST_KEYS, ManifestValues(m));
    SignableIs(m);
  }

  lemma UnsealedMembers(m: Manifest)
    requires T.Accepted(Texts(m.agentsInvolved)) && T.Accepted(Texts(m.decisionBasis))
    requires T.Accepted(TextMap(m.evidenceHashes))
    requires T.Accepted(ContainmentDoc(m.freezeId, m.revocationOperationId)) && T.Accepted(DecisionDoc(m.decision))
    requires T.Accepted(ObservationDocs(m.observations))
    requires T.Accepted(T.Str(Stamp(m.openedAt))) && T.Accepted(T.Str(Stamp(m.closedAt)))
    requires Plain(m.assertionsHash) && Plain(m.grantStateBasis) && Plain(m.incidentId) && Plain(m.policyVersion)
    requires Plain(m.previousEventHash) && Plain(m.signingKeyVersion) && Plain(m.subjectPrincipal) && Plain(m.workId)
    ensures forall x :: x in ManifestValues(m) ==> T.Accepted(x)
  {
    hide *;
    ManifestMembers(m);
    PlainText(m.assertionsHash);
    PlainText(m.grantStateBasis);
    PlainText(m.incidentId);
    PlainText(m.policyVersion);
    PlainText(m.previousEventHash);
    PlainText(m.signingKeyVersion);
    PlainText(m.subjectPrincipal);
    PlainText(m.workId);
  }

  lemma ManifestMembers(m: Manifest)
    ensures forall x :: x in ManifestValues(m) ==>
      x in [Texts(m.agentsInvolved), Texts(m.decisionBasis), TextMap(m.evidenceHashes),
            ContainmentDoc(m.freezeId, m.revocationOperationId), DecisionDoc(m.decision),
                ObservationDocs(m.observations),
            T.Str(Stamp(m.openedAt)), T.Str(Stamp(m.closedAt)), T.Str(m.assertionsHash), T.Str(m.grantStateBasis),
            T.Str(m.incidentId), T.Str(m.policyVersion), T.Str(m.previousEventHash), T.Str(m.signingKeyVersion),
            T.Str(m.subjectPrincipal), T.Str(m.workId)]
  {
    hide Texts, TextMap, Stamp, ContainmentDoc, DecisionDoc, ObservationDocs, MANIFEST_KEYS;
  }

  lemma UnsealedParts()
    ensures forall x :: x in ManifestValues(Unsealed()) ==> T.Accepted(x)
  {
    hide *;
    var m := Unsealed();
    UnsealedFields();
    NoTextsAccepted();
    NoContainmentAccepted();
    DecisionAccepted();
    SeenDocsAccepted();
    StampAccepted();
    TextMapAccepted(m.evidenceHashes);
    UnsealedMembers(m);
  }

  lemma NoTextsAccepted()
    ensures T.Accepted(Texts([]))
  {
    assert Texts([]) == T.Items([]);
  }

  lemma UnsealedFields()
    ensures var m := Unsealed();
      && m.agentsInvolved == [] && m.decisionBasis == [] && m.freezeId == None && m.revocationOperationId == None
      && m.decision == Adjudicate([], "i", "d", 0) && m.observations == [Seen()] && m.openedAt == 0 && m.closedAt == 0
      && (forall k :: k in m.evidenceHashes ==> Plain(m.evidenceHashes[k])) && Plain(m.assertionsHash)
      && Plain(m.grantStateBasis) && Plain(m.incidentId) && Plain(m.policyVersion) && Plain(m.previousEventHash)
      && Plain(m.signingKeyVersion) && Plain(m.subjectPrincipal) && Plain(m.workId)
  {
    hide Adjudicate, ObservationBytes, AssertionsBytes, Seen;
  }

  /** The incident as a completed run leaves it, signed. */
  function Recorded(): IncidentResult
  {
    UnsealedSigns();
    IncidentResult(Unsealed().(signature := MARK + ManifestBytes(Unsealed())), [], [Seen()])
  }

  lemma RecordedIsWell()
    ensures WellRecorded(TestCrypto(), map[], Some(TestSigner()), Recorded())
  {
    hide *;
    UnsealedSigns();
    RecordedFields();
    SignatureChangesNothing(Unsealed(), Recorded().manifest.signature);
    RulingOnNothing();
    MakeRecord(Unsealed(), Recorded());
  }

  lemma RecordedFields()
    ensures Signable(Unsealed())
    ensures Recorded() == IncidentResult(Unsealed().(signature := Recorded().manifest.signature), [], [Seen()])
    ensures Recorded().manifest.signature
      == SignatureFor(Some(TestSigner()), "incident_manifest", "i", ManifestBytes(Unsealed()))
    ensures var m := Unsealed();
      && m.evidenceHashes == map[Seen().observationId := TestCrypto().hash(ObservationBytes(Seen()))]
      && m.assertionsHash == TestCrypto().hash(AssertionsBytes([])) && m.previousEventHash != "" && m.incidentId == "i"
      && m.decision == Adjudicate([], "i", "d", 0)
  {
    UnsealedSigns();
    hide Adjudicate, ObservationBytes, AssertionsBytes, Signable, ManifestBytes;
  }

  lemma MakeRecord(m: Manifest, r: IncidentResult)
    requires r == IncidentResult(m.(signature := r.manifest.signature), [], [Seen()]) && Signable(m)
    requires Signable(r.manifest)
    requires m.evidenceHashes == map[Seen().observationId := TestCrypto().hash(ObservationBytes(Seen()))]
    requires m.assertionsHash == TestCrypto().hash(AssertionsBytes([])) && m.previousEventHash != ""
    requires m.decision == Adjudicate([], m.incidentId, m.decision.decisionId, m.decision.decidedAt)
    requires r.manifest.signature
      == SignatureFor(Some(TestSigner()), "incident_manifest", m.incidentId, ManifestBytes(r.manifest))
    ensures WellRecorded(TestCrypto(), map[], Some(TestSigner()), r)
  {
    hide Adjudicate, ObservationBytes, AssertionsBytes, Signable, ManifestBytes, Seen, TestCrypto, TestSigner,
         SignatureFor;
  }

  /**
   * Under one hash, one key and one signature two packages with different manifests verify: the genuine one, and one
   * whose manifest spells the declared agent another way.
   */
  lemma RespeltPackageVerifies() returns (k: Crypto, genuine: Package, p: Package)
    ensures PlainDigests(k) && NoCollision(k, p, genuine) && Proven(k, map[], genuine) && Proven(k, map[], p)
    ensures p.verificationKey == genuine.verificationKey && p.manifest.signature == genuine.manifest.signature
    ensures BindsOnePayload(k, p.verificationKey.value, p.manifest.signature)
    ensures p.manifest != genuine.manifest && p.assertions == genuine.assertions
    ensures p.observations == genuine.observations
  {
    k := TestCrypto();
    var signer := TestSigner();
    CryptoWorks();
    RecordedIsWell();
    ExportedPackageVerifies(k, map[], Some(signer), Recorded(), None);
    genuine := ExportPackage(k, Some(signer), Recorded(), None).value;
    assert genuine.manifest.observations == [Seen()] && Seen().declaredUserAgent == T.ZULU;
    hide *;
    p := genuine.(manifest := genuine.manifest.(observations := [Seen().(declaredUserAgent := T.OFFSET_ZERO)]));
    RespeltAgentVerifies(k, map[], genuine, Seen());
    ExportsAlike(k, genuine, p);
  }

  lemma ExportsAlike(k: Crypto, genuine: Package, p: Package)
    requires k == TestCrypto() && p.assertions == genuine.assertions && p.observations == genuine.observations
    ensures NoCollision(k, p, genuine)
  {
    CryptoWorks();
    hide ObservationBytes, AssertionsBytes, TestCrypto;
  }
}
