/** The arbiter's deterministic rule: typed assertions in, bounded findings out. */
module Adjudication {
  import opened Scopes

  /** The closed vocabulary of what an agent may submit. */
  datatype AssertionClass =
    | ObservedHttpAccess
    | GrantExisted
    | GrantDidNotExist
    | AccessInconsistentWithScope
    | RevocationInitiated
    | AccessDoesNotEstablishTraining

  function ClassName(c: AssertionClass): string {
    match c
    case ObservedHttpAccess => "OBSERVED_HTTP_ACCESS"
    case GrantExisted => "GRANT_EXISTED"
    case GrantDidNotExist => "GRANT_DID_NOT_EXIST"
    case AccessInconsistentWithScope => "ACCESS_INCONSISTENT_WITH_SCOPE"
    case RevocationInitiated => "REVOCATION_INITIATED"
    case AccessDoesNotEstablishTraining => "ACCESS_DOES_NOT_ESTABLISH_TRAINING"
  }

  datatype Assertion = Assertion(
    assertionId: string,
    assertionClass: AssertionClass,
    assertedByRole: string,
    subjectWorkId: string,
    subjectPrincipal: string,
    basis: string)

  /** What may be established. There is no third claim. */
  datatype Claim = AccessOutsideDeclaredPolicy | AccessWithinDeclaredPolicy

  datatype Finding = Finding(claim: Claim, established: bool, basis: seq<string>)

  datatype Decision = Decision(
    decisionId: string,
    incidentId: string,
    policyVersion: string,
    findings: seq<Finding>,
    notDeterminable: map<string, string>,
    decidedAt: Instant)

  const CONSENT_POLICY := "consent_policy_v1"
  const TRAINING := "MODEL_TRAINING_OCCURRED"
  const NOT_ESTABLISHED := "NOT_ESTABLISHED"

  function Classes(assertions: seq<Assertion>): set<AssertionClass> {
    set a | a in assertions :: a.assertionClass
  }

  /** The ids of the assertions of one class, in order. */
  function BasisOf(assertions: seq<Assertion>, c: AssertionClass): seq<string> {
    if assertions == [] then []
    else
      var last := assertions[|assertions| - 1];
      BasisOf(assertions[..|assertions| - 1], c) + if last.assertionClass == c then [last.assertionId] else []
  }

  predicate Outside(classes: set<AssertionClass>) {
    var grantExisted, inconsistent := GrantExisted in classes, AccessInconsistentWithScope in classes;
    ObservedHttpAccess in classes && (GrantDidNotExist in classes || inconsistent) && !(grantExisted && !inconsistent)
  }

  predicate Within(classes: set<AssertionClass>) {
    && ObservedHttpAccess in classes && GrantExisted in classes
    && AccessInconsistentWithScope !in classes && GrantDidNotExist !in classes
  }

  /** `", ".join(ids)` */
  function Join(ids: seq<string>): string {
    if ids == [] then ""
    else if |ids| == 1 then ids[0]
    else Join(ids[..|ids| - 1]) + ", " + ids[|ids| - 1]
  }

  function TrainingAnswer(assertions: seq<Assertion>): string {
    if AccessDoesNotEstablishTraining in Classes(assertions)
    then NOT_ESTABLISHED + " (asserted by the advocate: " + Join(BasisOf(assertions, AccessDoesNotEstablishTraining))
      + ")"
    else NOT_ESTABLISHED
  }

  function Adjudicate(assertions: seq<Assertion>, incidentId: string, decisionId: string,
                      decidedAt: Instant): Decision {
    var classes := Classes(assertions);
    var outside, within := Outside(classes), Within(classes);
    Decision(decisionId, incidentId, CONSENT_POLICY,
      [Finding(AccessOutsideDeclaredPolicy, outside,
         if outside
         then BasisOf(assertions, ObservedHttpAccess) + BasisOf(assertions, GrantDidNotExist)
           + BasisOf(assertions, AccessInconsistentWithScope)
         else []),
       Finding(AccessWithinDeclaredPolicy, within,
         if within then BasisOf(assertions, ObservedHttpAccess) + BasisOf(assertions, GrantExisted) else [])],
      map[TRAINING := TrainingAnswer(assertions)],
      decidedAt)
  }

  predicate Established(d: Decision, claim: Claim) {
    exists f :: f in d.findings && f.claim == claim && f.established
  }

  lemma FindingsOf(assertions: seq<Assertion>, incidentId: string, decisionId: string, decidedAt: Instant)
    ensures var d := Adjudicate(assertions, incidentId, decisionId, decidedAt);
      && (Established(d, AccessOutsideDeclaredPolicy) <==> Outside(Classes(assertions)))
      && (Established(d, AccessWithinDeclaredPolicy) <==> Within(Classes(assertions)))
  {
    var d := Adjudicate(assertions, incidentId, decisionId, decidedAt);
    assert d.findings[0] in d.findings && d.findings[1] in d.findings;
  }

  /** Some assertion is of the class. */
  ghost predicate Said(assertions: seq<Assertion>, c: AssertionClass) {
    exists a :: a in assertions && a.assertionClass == c
  }

  /**
   * Outside the policy exactly when an access was observed and either the custodian calls it inconsistent or the
   * negotiator denies a grant and nobody asserts one; within it exactly when a grant is asserted and nothing speaks
   * against it.
   */
  lemma EstablishedIff(assertions: seq<Assertion>, incidentId: string, decisionId: string, decidedAt: Instant)
    ensures var d := Adjudicate(assertions, incidentId, decisionId, decidedAt);
      && (Established(d, AccessOutsideDeclaredPolicy) <==>
          && Said(assertions, ObservedHttpAccess)
          && (|| Said(assertions, AccessInconsistentWithScope)
              || (Said(assertions, GrantDidNotExist) && !Said(assertions, GrantExisted))))
      && (Established(d, AccessWithinDeclaredPolicy) <==>
          && Said(assertions, ObservedHttpAccess) && Said(assertions, GrantExisted)
          && !Said(assertions, AccessInconsistentWithScope) && !Said(assertions, GrantDidNotExist))
  {
    FindingsOf(assertions, incidentId, decisionId, decidedAt);
    forall c: AssertionClass ensures c in Classes(assertions) <==> Said(assertions, c) {
    }
    hide Said, Classes, Established;
  }

  /** Order, repetition, wording and authorship of assertions move no finding: only which classes occur does. */
  lemma FindingsDependOnlyOnClasses(a: seq<Assertion>, b: seq<Assertion>, incident: string, dec: string, at: Instant,
                                    claim: Claim)
    requires Classes(a) == Classes(b)
    ensures Established(Adjudicate(a, incident, dec, at), claim) <==>
      Established(Adjudicate(b, incident, dec, at), claim)
  {
    FindingsOf(a, incident, dec, at);
    FindingsOf(b, incident, dec, at);
  }

  /** The assertion is of the class and has the id. */
  predicate Grounds(a: Assertion, c: AssertionClass, id: string) {
    a.assertionClass == c && a.assertionId == id
  }

  lemma {:induction false} BasisOfMembers(assertions: seq<Assertion>, c: AssertionClass, id: string)
    ensures id in BasisOf(assertions, c) <==> exists a :: a in assertions && Grounds(a, c, id)
  {
    if assertions != [] {
      var front, last := assertions[..|assertions| - 1], assertions[|assertions| - 1];
      BasisOfMembers(front, c, id);
      assert assertions == front + [last];
      assert forall a :: a in assertions <==> a in front || a == last;
      assert Grounds(last, c, id) <==> last.assertionClass == c && last.assertionId == id;
    }
  }

  /** The classes a claim may rest on. */
  function Relevant(claim: Claim): set<AssertionClass> {
    match claim
    case AccessOutsideDeclaredPolicy => {ObservedHttpAccess, GrantDidNotExist, AccessInconsistentWithScope}
    case AccessWithinDeclaredPolicy => {ObservedHttpAccess, GrantExisted}
  }

  /**
   * An established finding cites exactly the assertions of the classes its claim rests on; one not established cites
   * nothing.
   */
  lemma FindingsCiteTheirGrounds(assertions: seq<Assertion>, incident: string, dec: string, at: Instant, f: Finding,
                                 id: string)
    requires f in Adjudicate(assertions, incident, dec, at).findings
    ensures id in f.basis <==>
      f.established && exists a, c :: a in assertions && c in Relevant(f.claim) && Grounds(a, c, id)
  {
    forall c: AssertionClass
      ensures id in BasisOf(assertions, c) <==> exists a :: a in assertions && Grounds(a, c, id)
    {
      BasisOfMembers(assertions, c, id);
    }
    hide BasisOf, Outside, Within, Grounds;
  }

  /** No decision establishes both, and neither without an observed access. */
  lemma NeverBoth(assertions: seq<Assertion>, incident: string, dec: string, at: Instant)
    ensures var d := Adjudicate(assertions, incident, dec, at);
      && !(Established(d, AccessOutsideDeclaredPolicy) && Established(d, AccessWithinDeclaredPolicy))
      && (Established(d, AccessOutsideDeclaredPolicy) || Established(d, AccessWithinDeclaredPolicy) ==>
          ObservedHttpAccess in Classes(assertions))
  {
    FindingsOf(assertions, incident, dec, at);
  }

  /** The rule as its own documentation words it: no GRANT_EXISTED assertion may be present. */
  predicate OutsideAsDocumented(classes: set<AssertionClass>) {
    && ObservedHttpAccess in classes
    && (GrantDidNotExist in classes || AccessInconsistentWithScope in classes)
    && GrantExisted !in classes
  }

  /**
   * The code departs from its documentation exactly when an access is observed, granted, and inconsistent with the
   * scope.
   */
  lemma DocumentationDiffersIff(classes: set<AssertionClass>)
    ensures Outside(classes) != OutsideAsDocumented(classes) <==>
      ObservedHttpAccess in classes && GrantExisted in classes && AccessInconsistentWithScope in classes
  {
    var both := {ObservedHttpAccess, GrantExisted, AccessInconsistentWithScope};
    assert Outside(both) && !OutsideAsDocumented(both);
  }

  lemma {:induction false} BasisOfAppend(assertions: seq<Assertion>, extra: Assertion, c: AssertionClass)
    ensures BasisOf(assertions + [extra], c) == BasisOf(assertions, c) + if extra.assertionClass == c
      then [extra.assertionId] else []
  {
    assert (assertions + [extra])[..|assertions|] == assertions;
  }

  /** Recording that revocation was initiated, after the decision, leaves the whole decision reproducible. */
  lemma RevocationInitiatedChangesNothing(assertions: seq<Assertion>, extra: Assertion, incident: string, dec: string,
                                          at: Instant)
    requires extra.assertionClass == RevocationInitiated
    ensures Adjudicate(assertions + [extra], incident, dec, at) == Adjudicate(assertions, incident, dec, at)
  {
    var longer := assertions + [extra];
    assert Classes(longer) == Classes(assertions) + {RevocationInitiated} by {
      assert extra in longer;
      assert forall a :: a in longer ==> a in assertions || a == extra;
      assert forall a :: a in assertions ==> a in longer;
    }
    forall c | c != RevocationInitiated ensures BasisOf(longer, c) == BasisOf(assertions, c) {
      BasisOfAppend(assertions, extra, c);
    }
  }

  /** The validator on decisions: every refused question says NOT_ESTABLISHED, and the training question is asked. */
  predicate ValidDecision(d: Decision) {
    && (forall q :: q in d.notDeterminable ==> NOT_ESTABLISHED <= d.notDeterminable[q])
    && TRAINING in d.notDeterminable
  }

  lemma EveryDecisionKeepsTheBoundary(assertions: seq<Assertion>, incident: string, dec: string, at: Instant)
    ensures ValidDecision(Adjudicate(assertions, incident, dec, at))
  {
    hide BasisOf, Join;
    assert NOT_ESTABLISHED <= TrainingAnswer(assertions);
  }
}
