/** Signing and verifying a stored document, over its normal form first and its raw bytes second. */
module Signing {
  import opened Timestamps
  import opened CanonicalJson
  import Package

  type Fields = map<string, Value>

  /** One public key's verdict on an envelope and a payload. */
  type Verdict = (string, string) -> bool

  /** `doc.get("signature", "")` when it is a string. */
  function SignatureOf(doc: Fields): string {
    if "signature" in doc && doc["signature"].Str? then doc["signature"].s else ""
  }

  /** Envelope, then the normalised bytes, then the bytes as written before normalisation existed. */
  predicate VerifyDocument(verify: Verdict, doc: Fields)
    requires Accepted(Unsigned(doc))
  {
    var envelope := SignatureOf(doc);
    Package.IsEnvelope(envelope)
      && (verify(envelope, SignableBytes(doc)) || verify(envelope, Json(Unsigned(doc))))
  }

  /** An envelope is a signature over one payload only. */
  ghost predicate OverOnePayload(verify: Verdict, envelope: string) {
    forall p, q :: verify(envelope, p) && verify(envelope, q) ==> p == q
  }

  /** A placeholder or a missing signature never verifies, whatever the key says. */
  lemma PlaceholdersNeverVerify(verify: Verdict, doc: Fields, kind: string, reference: string)
    requires Accepted(Unsigned(doc))
    requires (SignatureOf(doc) == "" || SignatureOf(doc) == Package.Placeholder(kind, reference))
    ensures !VerifyDocument(verify, doc)
  {
    Package.PlaceholderIsNoEnvelope(kind, reference);
  }

  /**
   * A signature made over one document verifies on another exactly when, signature apart, the second is the first up to
   * the spelling of timestamps. The fallback to raw bytes lets nothing else through.
   */
  lemma VerifiesExactlyTheReSpellings(verify: Verdict, signed: Fields, served: Fields)
    requires Accepted(Unsigned(signed)) && Accepted(Unsigned(served))
    requires Package.IsEnvelope(SignatureOf(served)) && OverOnePayload(verify, SignatureOf(served))
    requires verify(SignatureOf(served), SignableBytes(signed))
    ensures VerifyDocument(verify, served) <==> SameDocument(Unsigned(signed), Unsigned(served))
  {
    SignedAlikeIff(signed, served);
    hide SameDocument, Package.IsEnvelope, Json;
    if Json(Unsigned(served)) == SignableBytes(signed) {
      JsonTellsApart(Unsigned(served), NormalizeValue(Unsigned(signed)));
      assert Unsigned(served) == NormalizeValue(Unsigned(signed));
      DocumentIdempotent(Unsigned(signed));
    }
  }
}
