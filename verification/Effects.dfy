/** Deterministic document ids. SHA-256 is any injective function on strings. */
module Effects {

  type Hash = string -> string

  ghost predicate Injective(h: Hash) {
    forall a, b :: h(a) == h(b) ==> a == b
  }

  const REVOKED_EVENT := "revoked_event"
  const OUTBOX := "outbox"
  const NOTICE := "notice"
  const RECEIPT := "receipt"

  predicate ColonFree(s: string) {
    forall i :: 0 <= i < |s| ==> s[i] != ':'
  }

  /** What an effect id hashes, up to its last colon. */
  function Operation(operationId: string, grantId: string): string {
    operationId + ":" + grantId
  }

  function EffectId(h: Hash, operationId: string, grantId: string, effect: string): string {
    h(Operation(operationId, grantId) + ":" + effect)
  }

  /** Decimal rendering of a natural number. */
  function Decimal(n: nat): (s: string)
    ensures s != [] && forall i :: 0 <= i < |s| ==> '0' <= s[i] <= '9'
  {
    var digit := ('0' as int + n % 10) as char;
    if n < 10 then [digit] else Decimal(n / 10) + [digit]
  }

  lemma {:induction false} DecimalInjective(m: nat, n: nat)
    requires Decimal(m) == Decimal(n)
    ensures m == n
  {
    var a, b := Decimal(m), Decimal(n);
    assert a[|a| - 1] == b[|b| - 1] && a[..|a| - 1] == b[..|b| - 1];
    assert m % 10 == n % 10;
    if m >= 10 && n >= 10 {
      assert a[..|a| - 1] == Decimal(m / 10) && b[..|b| - 1] == Decimal(n / 10);
      DecimalInjective(m / 10, n / 10);
    }
  }

  /** The id of an ordinary grant event: grant, step, attempt. */
  function DeterministicEventId(h: Hash, grantId: string, step: nat, attempt: nat): string {
    h(grantId + ":" + Decimal(step) + ":" + Decimal(attempt))
  }

  lemma NoColonPast(a: string, x: string)
    requires ColonFree(x)
    ensures forall i :: |a| < i <= |a| + |x| ==> (a + ":" + x)[i] != ':'
  {
    forall i | |a| < i <= |a| + |x| ensures (a + ":" + x)[i] != ':' {
      assert (a + ":" + x)[i] == x[i - |a| - 1];
    }
  }

  /** The last colon separates an effect from everything before it. */
  lemma LastColon(a: string, x: string, b: string, y: string)
    requires ColonFree(x) && ColonFree(y)
    requires a + ":" + x == b + ":" + y
    ensures a == b && x == y
  {
    var s, t := a + ":" + x, b + ":" + y;
    assert |s| == |a| + 1 + |x| && |t| == |b| + 1 + |y|;
    assert s[|a|] == ':' && t[|b|] == ':';
    NoColonPast(a, x);
    NoColonPast(b, y);
    assert |a| == |b|;
    assert s[..|a|] == a && t[..|b|] == b;
    assert s[|a| + 1..] == x && t[|b| + 1..] == y;
  }

  /** Two effect ids agree exactly when the effect is the same and the operation-and-grant text is. */
  lemma EffectIdsAgree(h: Hash, op1: string, g1: string, x: string, op2: string, g2: string, y: string)
    requires Injective(h) && ColonFree(x) && ColonFree(y)
    ensures EffectId(h, op1, g1, x) == EffectId(h, op2, g2, y) <==> x == y && Operation(op1, g1) == Operation(op2, g2)
  {
    if EffectId(h, op1, g1, x) == EffectId(h, op2, g2, y) {
      LastColon(Operation(op1, g1), x, Operation(op2, g2), y);
    }
  }

  /** Within one operation the grant id is recovered, colons or not. */
  lemma OneOperationSeparatesGrants(op: string, g1: string, g2: string)
    requires Operation(op, g1) == Operation(op, g2)
    ensures g1 == g2
  {
    assert Operation(op, g1)[|op| + 1..] == g1;
    assert Operation(op, g2)[|op| + 1..] == g2;
  }

  /** Could these two operations ever derive the same id? A caller can check this before minting one. */
  predicate MayCollide(op1: string, op2: string) {
    op1 == op2 || op1 + ":" <= op2 || op2 + ":" <= op1
  }

  /** Two operations share an id for some pair of grants if and only if one extends the other past a colon. */
  lemma CollisionIff(op1: string, op2: string)
    ensures MayCollide(op1, op2) <==> exists g1, g2 :: Operation(op1, g1) == Operation(op2, g2)
  {
    if op1 + ":" <= op2 {
      var rest := op2[|op1| + 1..];
      assert op2 == op1 + ":" + rest;
      assert Operation(op1, rest + ":" + "g") == Operation(op2, "g");
    } else if op2 + ":" <= op1 {
      var rest := op1[|op2| + 1..];
      assert op1 == op2 + ":" + rest;
      assert Operation(op1, "g") == Operation(op2, rest + ":" + "g");
    } else if op1 == op2 {
      assert Operation(op1, "g") == Operation(op2, "g");
    }
    forall g1, g2 | Operation(op1, g1) == Operation(op2, g2) ensures MayCollide(op1, op2) {
      SharedTextOverlaps(op1, g1, op2, g2);
    }
  }

  lemma SharedTextOverlaps(op1: string, g1: string, op2: string, g2: string)
    requires Operation(op1, g1) == Operation(op2, g2)
    ensures MayCollide(op1, op2)
  {
    var s, t := Operation(op1, g1), Operation(op2, g2);
    assert s[..|op1|] == op1 && t[..|op2|] == op2;
    assert s[|op1|] == ':' && t[|op2|] == ':';
    if |op1| < |op2| {
      assert op2[..|op1| + 1] == s[..|op1| + 1] == op1 + ":";
    } else if |op2| < |op1| {
      assert op1[..|op2| + 1] == t[..|op2| + 1] == op2 + ":";
    }
  }

  /** Operation ids the API accepts can collide: the pattern allows colons. */
  lemma ColonInOperationIdCollides(h: Hash)
    ensures "retry-01" != "retry-01:x"
    ensures EffectId(h, "retry-01", "x:grant", OUTBOX) == EffectId(h, "retry-01:x", "grant", OUTBOX)
  {
    assert Operation("retry-01", "x:grant") == Operation("retry-01:x", "grant");
  }

  lemma ExtensionHasColon(op: string, longer: string)
    requires op + ":" <= longer
    ensures !ColonFree(longer)
  {
    assert longer[|op|] == ':';
  }

  lemma ColonFreeOperationsNeverCollide(op1: string, op2: string)
    requires ColonFree(op1) && ColonFree(op2) && op1 != op2
    ensures !MayCollide(op1, op2)
  {
    if op1 + ":" <= op2 {
      ExtensionHasColon(op1, op2);
    } else if op2 + ":" <= op1 {
      ExtensionHasColon(op2, op1);
    }
  }

  /** An ordinary event id is never the id of a revocation effect. */
  lemma OrdinaryIdsAreNotEffects(h: Hash, grantId: string, step: nat, attempt: nat, op: string, g: string,
                                 effect: string)
    requires Injective(h)
    requires effect in {REVOKED_EVENT, OUTBOX, NOTICE, RECEIPT}
    ensures DeterministicEventId(h, grantId, step, attempt) != EffectId(h, op, g, effect)
  {
    var digits := Decimal(attempt);
    assert effect != [] && !('0' <= effect[0] <= '9');
    if DeterministicEventId(h, grantId, step, attempt) == EffectId(h, op, g, effect) {
      LastColon(grantId + ":" + Decimal(step), digits, Operation(op, g), effect);
    }
  }
}
