/** Scopes, grant events and the records a revocation produces. Instants are microseconds in UTC. */
module Scopes {

  datatype Option<+T> = None | Some(value: T)

  type Instant = int

  /** A licence scope. `validUntil` None is an unbounded window. */
  datatype Scope = Scope(
    useType: string,
    modelClass: string,
    commercial: bool,
    attributionRequired: bool,
    territory: seq<string>,
    validFrom: Instant,
    validUntil: Option<Instant>)

  /** The validator on Scope: a window may not end before it begins. */
  predicate WellFormed(s: Scope) {
    s.validUntil.Some? ==> s.validFrom <= s.validUntil.value
  }

  datatype Kind = Granted | Revoked | Expired | Superseded

  datatype GrantEvent = GrantEvent(
    eventId: string,
    grantId: string,
    workId: string,
    counterpartyId: string,
    scope: Scope,
    kind: Kind,
    supersedes: Option<string>,
    issuedAt: Instant)

  /** The "a notice is owed" half of a revocation. */
  datatype OutboxRow = OutboxRow(
    outboxId: string,
    operationId: string,
    grantId: string,
    workId: string,
    counterpartyId: string,
    noticeText: string,
    revokedAt: Instant,
    createdAt: Instant)

  datatype Notice = Notice(grantId: string, counterpartyId: string, revokedAt: Instant, noticeText: string)

  datatype Receipt = Receipt(revocationId: string, grantId: string, counterpartyId: string, revokedAt: Instant)
}
