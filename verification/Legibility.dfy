/** Which records can be signed: exactly those in which every text either is a timestamp or does not look like one. */
module Legibility {
  import opened Scopes
  import opened Adjudication
  import opened CanonicalJson
  import opened Documents
  import opened Timestamps

  predicate AllRead(s: seq<string>) {
    forall i :: 0 <= i < |s| ==> Parses(s[i])
  }

  predicate OptionReads(o: Option<string>) {
    o.Some? ==> Parses(o.value)
  }

  predicate MapReads(m: map<string, string>) {
    forall k :: k in m ==> Parses(m[k])
  }

  predicate ObservationReads(o: Observation) {
    && Parses(o.declaredUserAgent) && Parses(o.detail) && Parses(o.observationId) && Parses(o.path)
    && Parses(o.workId)
  }

  predicate ObservationsRead(s: seq<Observation>) {
    forall i :: 0 <= i < |s| ==> ObservationReads(s[i])
  }

  predicate FindingsRead(s: seq<Finding>) {
    forall i :: 0 <= i < |s| ==> AllRead(s[i].basis)
  }

  predicate DecisionReads(d: Decision) {
    && Parses(d.decisionId) && FindingsRead(d.findings) && Parses(d.incidentId) && MapReads(d.notDeterminable)
    && Parses(d.policyVersion)
  }

  /** Every text the manifest binds. Instants, claims and statuses are written by the program and always read. */
  predicate ManifestReads(m: Manifest) {
    && AllRead(m.agentsInvolved) && Parses(m.assertionsHash)
    && OptionReads(m.freezeId) && OptionReads(m.revocationOperationId)
    && DecisionReads(m.decision) && AllRead(m.decisionBasis) && MapReads(m.evidenceHashes)
    && Parses(m.grantStateBasis) && Parses(m.incidentId) && ObservationsRead(m.observations)
    && Parses(m.policyVersion) && Parses(m.previousEventHash) && Parses(m.signingKeyVersion)
    && Parses(m.subjectPrincipal) && Parses(m.workId)
  }

  // ------------------------------------------------------------------
  // Document by document
  // ------------------------------------------------------------------

  /** The first n values do not raise, one after another. */
  predicate AcceptedUpTo(v: seq<Value>, n: nat)
    requires n <= |v|
    decreases n
  {
    n == 0 || (AcceptedUpTo(v, n - 1) && Accepted(v[n - 1]))
  }

  lemma {:induction false} AcceptedUpToIff(v: seq<Value>, n: nat)
    requires n <= |v|
    ensures AcceptedUpTo(v, n) <==> forall i :: 0 <= i < n ==> Accepted(v[i])
  {
    hide Accepted;
    if n > 0 {
      AcceptedUpToIff(v, n - 1);
    }
  }

  /** An object built field by field does not raise exactly when no field does. */
  lemma ObjectAccepted(keys: seq<string>, values: seq<Value>)
    requires |keys| == |values| && Distinct(keys)
    ensures Accepted(Object(Named(keys, values))) <==> AcceptedUpTo(values, |values|)
  {
    AcceptedUpToIff(values, |values|);
    var fields := Named(keys, values);
    forall i | 0 <= i < |keys| ensures keys[i] in fields && fields[keys[i]] == values[i] {
      FieldOf(keys, values, i);
    }
    assert Accepted(Object(fields)) <==> forall k :: k in fields ==> Accepted(fields[k]);
    hide Named, Distinct, Accepted, AcceptedUpTo;
    forall k | k in fields ensures exists i :: 0 <= i < |keys| && keys[i] == k {
      assert k in keys;
    }
  }

  lemma TextAccepted(s: string)
    ensures Accepted(Str(s)) <==> Parses(s)
  {
    RaisesIff(s);
    hide Matches, IsTimestamp, Normalize;
  }

  lemma TextsAccepted(s: seq<string>)
    ensures Accepted(Texts(s)) <==> AllRead(s)
  {
    var docs := Texts(s).items;
    forall i | 0 <= i < |s| ensures docs[i] in docs && (Accepted(docs[i]) <==> Parses(s[i])) {
      TextAccepted(s[i]);
    }
    ItemsAccepted(docs);
    hide Accepted, Parses, Texts;
  }

  lemma ItemsAccepted(docs: seq<Value>)
    ensures Accepted(Items(docs)) <==> forall i :: 0 <= i < |docs| ==> Accepted(docs[i])
  {
    assert Accepted(Items(docs)) <==> forall x :: x in docs ==> Accepted(x);
    hide Accepted;
    assert forall i :: 0 <= i < |docs| ==> docs[i] in docs;
  }

  lemma OptionAccepted(o: Option<string>)
    ensures Accepted(OptionalText(o)) <==> OptionReads(o)
  {
    if o.Some? {
      TextAccepted(o.value);
    }
    hide Parses, Normalize;
  }

  lemma TextMapAccepted(m: map<string, string>)
    ensures Accepted(TextMap(m)) <==> MapReads(m)
  {
    var fields := TextMap(m).fields;
    assert fields.Keys == m.Keys;
    forall k | k in m ensures Accepted(fields[k]) <==> Parses(m[k]) {
      TextAccepted(m[k]);
    }
    assert Accepted(TextMap(m)) <==> forall k :: k in fields ==> Accepted(fields[k]);
    hide Accepted, Parses;
  }

  /** A text that does not open with a digit does not look like a timestamp. */
  lemma WordReads(s: string)
    requires s != "" && !('0' <= s[0] <= '9')
    ensures Parses(s)
  {
    hide TailShape, IsTimestamp;
    if s[|s| - 1] == '\n' && |s| > 1 {
      assert s[..|s| - 1][0] == s[0];
    }
  }

  lemma StampAccepted(i: Instant)
    ensures Accepted(Str(Stamp(i)))
  {
    TextAccepted(Stamp(i));
    StampIsRead(i);
    if InRange(i) {
      hide Accepted, Stamp, Matches, IsTimestamp;
    } else {
      WordReads(Stamp(i));
      hide Accepted, Matches, IsTimestamp;
    }
  }

  lemma ConstantsAccepted(c: Claim, established: bool)
    ensures Accepted(Str(ClaimName(c))) && Accepted(Str(StatusText(established)))
  {
    WordReads(ClaimName(c));
    WordReads(StatusText(established));
    TextAccepted(ClaimName(c));
    TextAccepted(StatusText(established));
    hide Accepted, Parses;
  }

  lemma ObservationParts(o: Observation)
    ensures var v := ObservationValues(o);
      && |v| == 6 && v[0] == Str(o.declaredUserAgent) && v[1] == Str(o.detail) && v[2] == Str(o.observationId)
      && v[3] == Str(Stamp(o.observedAt)) && v[4] == Str(o.path) && v[5] == Str(o.workId)
  {
    hide Stamp, OBSERVATION_KEYS;
  }

  lemma ObservationAccepted(o: Observation)
    ensures Accepted(ObservationDoc(o)) <==> ObservationReads(o)
  {
    KeysAreDistinct();
    TextAccepted(o.declaredUserAgent);
    TextAccepted(o.detail);
    TextAccepted(o.observationId);
    StampAccepted(o.observedAt);
    TextAccepted(o.path);
    TextAccepted(o.workId);
    ObservationParts(o);
    hide Accepted, Parses, Named, Distinct, Stamp, ObservationValues, OBSERVATION_KEYS;
    var v := ObservationValues(o);
    ObjectAccepted(OBSERVATION_KEYS, v);
    assert AcceptedUpTo(v, 6) <==> AcceptedUpTo(v, 3) && Accepted(v[3]) && Accepted(v[4]) && Accepted(v[5]);
    assert AcceptedUpTo(v, 3) <==> Accepted(v[0]) && Accepted(v[1]) && Accepted(v[2]);
  }

  lemma ObservationsAccepted(s: seq<Observation>)
    ensures Accepted(ObservationDocs(s)) <==> ObservationsRead(s)
  {
    hide Accepted, ObservationDoc, ObservationReads;
    var docs := ObservationDocs(s).items;
    forall i | 0 <= i < |s| ensures Accepted(docs[i]) <==> ObservationReads(s[i]) {
      ObservationAccepted(s[i]);
    }
    ItemsAccepted(docs);
  }

  lemma FindingAccepted(f: Finding)
    ensures Accepted(FindingDoc(f)) <==> AllRead(f.basis)
  {
    KeysAreDistinct();
    TextsAccepted(f.basis);
    ConstantsAccepted(f.claim, f.established);
    assert |FINDING_KEYS| == 3;
    hide Accepted, AllRead, Named, Distinct, Texts, ClaimName, StatusText, FINDING_KEYS;
    var v := FindingValues(f);
    ObjectAccepted(FINDING_KEYS, v);
    assert AcceptedUpTo(v, 3) <==> Accepted(v[0]) && Accepted(v[1]) && Accepted(v[2]);
  }

  lemma FindingsAccepted(s: seq<Finding>)
    ensures Accepted(FindingDocs(s)) <==> FindingsRead(s)
  {
    hide Accepted, FindingDoc, AllRead;
    var docs := FindingDocs(s).items;
    forall i | 0 <= i < |s| ensures Accepted(docs[i]) <==> AllRead(s[i].basis) {
      FindingAccepted(s[i]);
    }
    ItemsAccepted(docs);
  }

  lemma DecisionParts(d: Decision)
    ensures var v := DecisionValues(d);
      && |v| == 6 && v[0] == Str(Stamp(d.decidedAt)) && v[1] == Str(d.decisionId) && v[2] == FindingDocs(d.findings)
      && v[3] == Str(d.incidentId) && v[4] == TextMap(d.notDeterminable) && v[5] == Str(d.policyVersion)
  {
    hide Stamp, FindingDocs, TextMap, DECISION_KEYS;
  }

  lemma DecisionAccepted(d: Decision)
    ensures Accepted(DecisionDoc(d)) <==> DecisionReads(d)
  {
    KeysAreDistinct();
    StampAccepted(d.decidedAt);
    TextAccepted(d.decisionId);
    FindingsAccepted(d.findings);
    TextAccepted(d.incidentId);
    TextMapAccepted(d.notDeterminable);
    TextAccepted(d.policyVersion);
    DecisionParts(d);
    hide Accepted, Parses, Named, Distinct, Stamp, FindingDocs, TextMap, MapReads, FindingsRead, DecisionValues,
         DECISION_KEYS;
    var v := DecisionValues(d);
    ObjectAccepted(DECISION_KEYS, v);
    assert AcceptedUpTo(v, 6) <==> AcceptedUpTo(v, 3) && Accepted(v[3]) && Accepted(v[4]) && Accepted(v[5]);
    assert AcceptedUpTo(v, 3) <==> Accepted(v[0]) && Accepted(v[1]) && Accepted(v[2]);
  }

  lemma ContainmentAccepted(freezeId: Option<string>, operationId: Option<string>)
    ensures Accepted(ContainmentDoc(freezeId, operationId)) <==> OptionReads(freezeId) && OptionReads(operationId)
  {
    KeysAreDistinct();
    OptionAccepted(freezeId);
    OptionAccepted(operationId);
    assert |CONTAINMENT_KEYS| == 2;
    hide Accepted, OptionReads, OptionalText, Named, Distinct, CONTAINMENT_KEYS;
    var v := [OptionalText(freezeId), OptionalText(operationId)];
    ObjectAccepted(CONTAINMENT_KEYS, v);
    assert AcceptedUpTo(v, 2) <==> Accepted(v[0]) && Accepted(v[1]);
  }

  // ------------------------------------------------------------------
  // The manifest
  // ------------------------------------------------------------------

  lemma FrontAccepted(m: Manifest)
    ensures AcceptedUpTo(ManifestValues(m), 8) <==>
      && AllRead(m.agentsInvolved) && Parses(m.assertionsHash)
      && OptionReads(m.freezeId) && OptionReads(m.revocationOperationId)
      && DecisionReads(m.decision) && AllRead(m.decisionBasis) && MapReads(m.evidenceHashes)
      && Parses(m.grantStateBasis)
  {
    TextsAccepted(m.agentsInvolved);
    TextAccepted(m.assertionsHash);
    StampAccepted(m.closedAt);
    ContainmentAccepted(m.freezeId, m.revocationOperationId);
    DecisionAccepted(m.decision);
    TextsAccepted(m.decisionBasis);
    TextMapAccepted(m.evidenceHashes);
    TextAccepted(m.grantStateBasis);
    ManifestFront(m);
    hide Accepted, Parses, AllRead, OptionReads, MapReads, DecisionReads, Texts, TextMap, DecisionDoc, ContainmentDoc,
         Stamp, ManifestValues, MANIFEST_KEYS;
    var v := ManifestValues(m);
    assert AcceptedUpTo(v, 8) <==>
      AcceptedUpTo(v, 4) && Accepted(v[4]) && Accepted(v[5]) && Accepted(v[6]) && Accepted(v[7]);
    assert AcceptedUpTo(v, 4) <==> Accepted(v[0]) && Accepted(v[1]) && Accepted(v[2]) && Accepted(v[3]);
  }

  lemma BackAccepted(m: Manifest)
    ensures AcceptedUpTo(ManifestValues(m), 16) <==>
      && AcceptedUpTo(ManifestValues(m), 8)
      && Parses(m.incidentId) && ObservationsRead(m.observations)
      && Parses(m.policyVersion) && Parses(m.previousEventHash) && Parses(m.signingKeyVersion)
      && Parses(m.subjectPrincipal) && Parses(m.workId)
  {
    TextAccepted(m.incidentId);
    ObservationsAccepted(m.observations);
    StampAccepted(m.openedAt);
    TextAccepted(m.policyVersion);
    TextAccepted(m.previousEventHash);
    TextAccepted(m.signingKeyVersion);
    TextAccepted(m.subjectPrincipal);
    TextAccepted(m.workId);
    ManifestBack(m);
    hide Accepted, Parses, ObservationsRead, ObservationDocs, Stamp, ManifestValues, MANIFEST_KEYS;
    var v := ManifestValues(m);
    assert AcceptedUpTo(v, 16) <==>
      AcceptedUpTo(v, 12) && Accepted(v[12]) && Accepted(v[13]) && Accepted(v[14]) && Accepted(v[15]);
    assert AcceptedUpTo(v, 12) <==>
      AcceptedUpTo(v, 8) && Accepted(v[8]) && Accepted(v[9]) && Accepted(v[10]) && Accepted(v[11]);
  }

  /** A manifest can be signed exactly when every text it binds reads. */
  lemma SignableIff(m: Manifest)
    ensures Signable(m) <==> ManifestReads(m)
  {
    KeysAreDistinct();
    UnsignedManifest(m);
    FrontAccepted(m);
    BackAccepted(m);
    ManifestFront(m);
    hide Accepted, Parses, AllRead, OptionReads, MapReads, DecisionReads, ObservationsRead, AcceptedUpTo, Named,
         Distinct, ManifestDoc, ManifestValues, MANIFEST_KEYS;
    ObjectAccepted(MANIFEST_KEYS, ManifestValues(m));
  }

  lemma DecisionPolicyReads(d: Decision)
    requires DecisionReads(d)
    ensures Parses(d.policyVersion)
  {
  }

  lemma OneObservationReads(o: Observation)
    requires ObservationReads(o)
    ensures ObservationsRead([o])
  {
  }

  lemma MakeManifestReads(m: Manifest)
    requires AllRead(m.agentsInvolved) && Parses(m.assertionsHash)
    requires OptionReads(m.freezeId) && OptionReads(m.revocationOperationId)
    requires DecisionReads(m.decision) && AllRead(m.decisionBasis) && MapReads(m.evidenceHashes)
    requires Parses(m.grantStateBasis) && Parses(m.incidentId) && ObservationsRead(m.observations)
    requires Parses(m.policyVersion) && Parses(m.previousEventHash) && Parses(m.signingKeyVersion)
    requires Parses(m.subjectPrincipal) && Parses(m.workId)
    ensures ManifestReads(m)
  {
    hide Parses, AllRead, OptionReads, DecisionReads, MapReads, ObservationsRead;
  }
}
