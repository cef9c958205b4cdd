# The consent log, its revocation protocol and the fencing around it

This project models the part of Hodi that decides who may use a work and what happens when an artist takes a right back:

- **The log and the decision** (`Lattice`, `Resolver`, `Evaluator`). Grants are append-only events. A fold gives the state of a grant, a projection gives the active ones, and a five-dimension test answers one request. The containment tables are parameters: any finite reflexive, transitive, antisymmetric, closed map.
- **The revocation cascade** (`Effects`, `Gateway`, `Cascade`, `CascadeTheorems`, `CascadeMachine`, `CascadeRefinement`, `RunFinality`, `TimedRuns`, `ColonFreeRuns`, `Overlap`). The propagator is a class over the create-only store; beside it stands a step machine in which any number of attempts interleave, stop for good and are retried. The class's contract is proved to be one run of the machine, and finality is proved for both.
- **Leases and supervision** (`Lease`, `Supervisor`, `Fencing`, `FencingRefinement`). The ledger and the supervisor are classes; the interleaved protocol keeps the lease check and the commit as two steps, as the code does, and the gateway's leased write is proved to be those two steps.
- **Negotiation, incidents, packages** (`Negotiation`, `Adjudication`, `IncidentEngine`, `Closing`, `Documents`, `Legibility`, `Package`). `Documents` is the incident record as the JSON documents it is hashed and signed as, `Legibility` which records can be signed, `Closing` what a run needs in order to close.
- **Smaller machines** (`Market`, `RateLimit`, `Migration`) and **canonicalisation** (`Timestamps`, `Spellings`, `CanonicalJson`, `Signing`; RFC 3339, section 5.6). `CanonicalJson` is the sorted, escaped JSON text itself, `Spellings` the timestamps character by character.

`Examples` holds concrete inputs on which a promise fails, mostly over the shipped tables, and `Overlap` a concrete run; `Survivor` is a concrete store on which containment leaves a grant active, `Respelling` a concrete signed package and a different one that verifies under its signature. `Text` and `Sorting` are Python's string order and a stable sort. Instants are integers of microseconds. `dafny verify dfyconfig.toml` checks everything.

## Main results

- **Finality.** A completed cascade withdraws the use from everyone for good if and only if no selected grant's ids were taken (`CascadeTheorems.Finality`, `FinalExactlyWhenClear`), and leaves every other grant as it was (`Frame`, `EndsExactlyTheExposed`). Over interleaved, stopped and retried attempts a finished one does too, on a clock with no premise about dates and for every as-of instant (`TimedRuns.FinalityOnAClock`), and a fresh operation id always does (`RunFinality.FreshOperationIsFinal`, `TimedRuns.FreshOperationIsOwn`). When no caller sends a colon in an operation id, drawing it fresh is all it takes (`ColonFreeRuns.ColonFreeFinality`).
- **Exactly once.** In every reachable state every effect exists at most once, never alone and with one text (`CascadeMachine.EffectsAreExactlyOnce`, `EffectHappensOnce`); a finished attempt terminated and notified a selected grant if and only if no overlapping operation stands under its ids (`FinishedAttemptIsComplete`), a run in which one does exists (`Overlap.OverlapLeavesAGrantActive`), and none does while operation ids hold no colon (`ColonFreeRuns.ColonFreeAttemptDelivers`). The class refines the machine (`CascadeRefinement.UninterruptedCallIsARun`).
- **Completion.** A cascade that policy, routing and lease let through completes (`Cascade.RevocationPropagator.ExecuteRevocationCascade`), and so does a retry under the same id, with all of the first call's receipts among its own (`CascadeTheorems.RetryCascade`, `RetryReturnsTheReceipts`). A write lands exactly when it is allowed, backed and new (`Gateway.AgentGateway.WriteDocument`, `WriteDocumentsAtomic`). An incident run that nothing refuses closes (`IncidentEngine.IncidentEngine.Run`).
- **Decisions.** The fold is its greatest event whatever the order of the log (`Resolver.LastEventWins`, `ReplayIsOrderFree`), the five tests are set inclusion, and a yes is one grant that is open now and holds the whole request (`Evaluator.InsideIffEveryDimension`, `CurrentIffOpen`, `Permits`). The derivation walk lists the closure (`Lattice.UseTypeDerivationChain`).
- **Fencing.** Every committed write passed a check while its lease was active, and nobody sees an outcome before the fence (`Fencing.CommittedWritesPassedWhileActive`, `NobodySeesAnEndingBeforeTheFence`); a lease is active exactly by its greatest event (`Lease.LatestEventDecides`), and with a ledger attached nothing lands without one (`Gateway.LeaseCheckIff`). The gateway refines the protocol (`FencingRefinement.LeasedWrite`).
- **Negotiation.** The offer is the greatest lower bound of request and policy (`Negotiation.OfferIsGreatestLowerBound`); which proposals are rejected, and as what, is exact (`RejectedIff`), and exactly when a rejection passes a scope over is decided (`RejectionIsFinalIff`).
- **Incidents.** What a run decides is tied to the stored access record, the fold at the observed instant and the stored policy (`IncidentEngine.IncidentEngine.Run`); what containment ends is exact (`ContainmentEndsExactly`), and so is what can be signed (`Legibility.SignableIff`). Under a genuine package's key and signature exactly its re-spellings verify (`Package.TamperingIsDetected`).
- **Canonicalisation and moves.** Which strings are timestamps is exact (`Spellings.IsTimestampIff`). No two documents have one canonical text (`CanonicalJson.JsonTellsApart`), and two sign alike exactly when they differ at most in spelling of instants (`Timestamps.DocumentsAgreeIff`, `CanonicalJson.SignedAlikeIff`); a migration interleaved with anything loses nothing (`Migration.CutoverConserves`).

## What the theorems rest on

- **Clock.** Finality needs every event already logged about the work to be dated no later than the cascade's own reading, and readings to increase strictly (`Cascade.Clock`); over runs, either a condition on the log, that what ends a selected grant is dated after the grantings the attempt read (`RunFinality.ClocksKept`), or a clock that every reading advances (`TimedRuns.IsTimed`), from which that follows whenever the selected grants were free and no attempt of the operation held a draft when the attempt read the log. A retry after a re-grant meets neither, however good the clock. Folds sort on (instant, id), so without this a terminating event can sort first: `Lease.TieRevivesRevokedLease` is such a log. The lease lemmas in the table need no clock, only unique event ids, which every ledger method keeps; the supervisor and `Fencing` need strictly increasing instants along each lease. Exactly-once needs no clock at all.
- **Ids.** Event ids are unique. A grant id determines its work and counterparty, because readers fold a log filtered by both (`src/api/buyer_api.py:233-247`). Leases, incidents and operations draw ids never used before.
- **Hashing.** For effect ids SHA-256 is taken as an injective function. For packages nothing so strong is needed: a digest never has the shape of a timestamp, and the two packages compared exhibit no collision (`Package.NoCollision`). `Respelling.RespeltPackageVerifies` meets all of these premises at once, with an injective hash and working signatures. What JSON text, hashed bytes and signed bytes tell apart is proved, not assumed (`CanonicalJson.JsonTellsApart`, `Documents.HashedBytesTellApart`, `Documents.BytesAgreeIff`). `operation:grant:effect` is injective for one operation; across operations two ids collide exactly when one operation id extends the other past a colon (`Effects.CollisionIff`), which the API's pattern allows: `Overlap.OverlapLeavesAGrantActive` is a run in which an attempt then reports success and its grant stays active.
- **Retries.** Finality holds if and only if no selected grant's ids are already taken (`CascadeTheorems.FinalExactlyWhenClear`). It is the guard of the batch, so a caller can check it; a fresh operation id meets it (`RunFinality.FreshOperationIsClear`), and a retry after the same grant was granted again does not (`RetryCollides`, and concretely `Examples.RetryAfterRegrantIsNotClear`).
- **The clamp** needs a non-empty `territory_allowed` for worldwide requests, a maximum use that is not prohibited, a day count that is not negative, and a policy model class the request's class covers. Each condition is proved to be exactly what is needed.

## Where the code and its words differ

The model follows the code.

- `adjudicate_assertions` documents that a GRANT_EXISTED assertion prevents an outside finding; the code lets ACCESS_INCONSISTENT_WITH_SCOPE override it (`Adjudication.DocumentationDiffersIff` says exactly when).
- `write_documents_atomic` promises all or none; a batch naming one new id twice succeeds and keeps only the last (`Gateway.BatchStoresEveryWriteIff`).
- A lease refusal is promised to be recorded; an empty lease id crashes on the way to the record (`Gateway.LeaseRefusalRecordedIff`).
- A rejection as incomparable says no narrower scope satisfies both sides. One exists if and only if the two uses share a part, some model class is allowed by both, and territories and day count leave room (`Negotiation.RejectionIsFinalIff`; an order on which it does: `Examples.IncomparableRejectionPassesAScopeOver`). In the shipped tables incomparable uses share nothing, so there the rejection is final (`Examples.ShippedIncomparableRejectionIsFinal`).
- A rejection as prohibited says no narrowing can rescue it. One can if and only if a use that is not prohibited lies below both the request and the maximum and the other dimensions meet, which happens on the shipped tables (`Examples.ProhibitedRejectionPassesAScopeOver`). The clamp also looks at the requested use alone: an agreed use may have a prohibited one below it (`Examples.AgreedReachesProhibited`, `Negotiation.NeverPermitsProhibitedIff`).
- Containment is said to terminate the active grants; it revokes the use of the first, and grants that do not contain that use stay active (`IncidentEngine.ContainmentEndsExactly`; two grants of one counterparty of which the narrower survives: `Survivor.NarrowerGrantSurvivesContainment`).
- A single altered byte in any observation is said to break its hash. That holds of the observations beside the manifest; of the manifest's own copy a string that is a timestamp can be re-spelt and every check still passes (`Package.RespeltAgentVerifies`; two concrete packages: `Respelling.RespeltPackageVerifies`), and nothing else can (`Package.TamperingIsDetected`). A record holding a string of that shape that is no timestamp can be neither closed nor verified: building the bytes raises (`Package.UnreadableAgentCannotBeSigned`), and nothing else keeps a manifest from being signed (`Legibility.SignableIff`).
- An empty `territory_allowed` reads as "nowhere" in the clamp and as "everywhere" in the offer it makes (`Negotiation.OfferWithinPolicyIff`).
- `_normalize_timestamps` says other strings pass through untouched; exactly those of the right shape raise instead (`Timestamps.RaisesIff`): an impossible date (`ImpossibleDateRaises`), a leap second (`LeapSecondRaises`), a final newline (`TrailingNewlineRaises`).
- `LeaseLedger.state` says terminal events win; a stopped lease folds to active at some instant if and only if an issue sorts after every stop (`Lease.StoppedLeaseFoldsActiveIff`), and at one shared instant the random event id decides (`Lease.TieRevivesRevokedLease`).

## Model

| member | source | states |
|---|---|---|
| Text.Sorted | src/schema/lattice.py:58 | `sorted()` of a set lists exactly its members, strictly ascending by code point |
| Text.LeqIff | src/resolve/resolver.py:43-48 | string order: prefixes first, otherwise the first differing code point decides |
| Lattice.UseTypeCovers | src/schema/lattice.py:41-58 | the covering edges of any order, all of them and no others, ascending |
| Lattice.UseTypeDerivationChain | src/schema/lattice.py:61-86 | the walk terminates, lists exactly the containment closure without repetition, and every entry but the first hangs off an earlier entry that covers it |
| Lattice.CoverAbove | src/schema/lattice.py:41-58 | in any finite partial order some cover of x lies at or above any y strictly below x |
| Lattice.ClosedUnderCovers | src/schema/lattice.py:75-86 | following covering edges alone reaches everything contained |
| Resolver.Resolve | src/resolve/resolver.py:16-85 | filter, stable sort by (instant, id), fold |
| Resolver.LastEventWins | src/resolve/resolver.py:51-83 | the status is active, revoked, superseded or expired exactly as the greatest matching event by (instant, id) is granted, revoked, superseded or expired; scope, work, counterparty and last id are that event's |
| Resolver.HistoryIsTheGrantsLog | src/resolve/resolver.py:30-51 | the history holds every event of the grant up to the instant, as often as the log does, and nothing else, in ascending (instant, id) order |
| Resolver.ActiveIff | src/resolve/resolver.py:62-65 | a grant is active if and only if its greatest event is a grant |
| Resolver.NoEventNoGrant | src/resolve/resolver.py:54-56 | a grant nothing matches is nonexistent, without scope, work, counterparty, last id or history |
| Resolver.ReplayIsOrderFree | src/resolve/resolver.py:36-51 | any permutation of a log with unique ids resolves to the identical state, history included |
| Resolver.IrrelevantEventsAreIgnored | src/resolve/resolver.py:30-35 | appending events of other grants, or later than the question, changes nothing |
| Resolver.SupersededByLastMover | src/resolve/resolver.py:62-82 | superseded_by is what the last granted or superseded event left, carried past revocations and expiries |
| Resolver.NothingSuperseded | src/resolve/resolver.py:62-82 | a history of revocations and expiries alone leaves superseded_by empty |
| Resolver.ActiveGrantEvents | src/resolve/resolver.py:88-105 | the projection of the fold over every grant id of the log |
| Resolver.ActiveGrantsProjectTheFold | src/resolve/resolver.py:99-105 | exactly the greatest events that are grants, one per active grant, in grant id order |
| Evaluator.ClosedMeansNeverCurrentAgain | src/resolve/evaluator.py:26-56 | the cascade's closed-window test holds exactly when the currency test fails now and at every later instant |
| Evaluator.CurrentIffOpen | src/resolve/evaluator.py:26-31 | a scope is current at an instant if and only if it covers some point at that instant |
| Evaluator.InsideIffEveryDimension | src/resolve/evaluator.py:121-160 | the five dimension tests together decide set inclusion of (use, model, commerciality, territory, instant) points |
| Evaluator.AdmitsIff | src/resolve/evaluator.py:105-160 | a grant admits a request exactly when it covers something now and everything the request asks for |
| Evaluator.Permits | src/resolve/evaluator.py:105-177 | yes if and only if one single grant covers a point at the instant and contains the whole request; names the first such grant and its attribution duty; raises exactly on the first event that is not a folded grant |
| Evaluator.MonotoneInGrantsAntitoneInRequest | src/resolve/evaluator.py:113-169 | more grants or a smaller request never turn a yes into a no |
| Evaluator.DecisionOverTheLog | src/resolve/evaluator.py:105-111 | after folding the guard never fires, and yes means the greatest event of some one grant admits the request |
| Effects.EffectIdsAgree | src/schema/revocation.py:40-49 | two effect ids are equal exactly when effect and operation-and-grant text are |
| Effects.OneOperationSeparatesGrants | src/schema/revocation.py:49 | within one operation the grant id can be read back, colons or not |
| Effects.CollisionIff | src/schema/revocation.py:49 | two operations share an id for some grants if and only if they are equal or one extends the other past a colon |
| Effects.ColonInOperationIdCollides | src/api/buyer_api.py:578-580 | two operation ids the API accepts that collide |
| Effects.ColonFreeOperationsNeverCollide | src/schema/revocation.py:40-49 | distinct colon-free operation ids never collide |
| Effects.OrdinaryIdsAreNotEffects | src/schema/grant_event.py:9-15 | an ordinary deterministic event id is never the id of a revocation effect |
| Gateway.AgentGateway.Enforce | src/gateway/gateway.py:219-291 | the verdict for any policy table; a refusal is returned and recorded once, a pass records nothing |
| Gateway.AgentGateway.EnforceLease | src/gateway/gateway.py:425-462 | passes without a ledger or under an active lease, refuses and records otherwise, crashes on an empty id |
| Gateway.LeaseCheckIff | src/gateway/gateway.py:425-462 | with a ledger attached the check passes exactly when a lease is presented, not the empty string, whose greatest event is an issue still in its lifetime; every other presentation but the empty string is a denial |
| Gateway.AgentGateway.ReadCollection | src/gateway/gateway.py:392-423 | exactly the served and written documents meeting every filter, in order, or one recorded denial |
| Gateway.QueryIff | src/gateway/gateway.py:407-416 | a query returns each served or written document that has every required value, as often as it stands there, and no other |
| Gateway.AgentGateway.WriteDocument | src/gateway/gateway.py:464-495 | the document lands, and the store changes, if and only if the caller is allowed, the lease is backed and the id is free; otherwise the store is as it was, and a taken id is a collision |
| Gateway.AgentGateway.WriteDocumentsAtomic | src/gateway/gateway.py:497-547 | the batch lands, and the store changes, if and only if every write is allowed and backed at its own reading, all go to one database and every id is free; else first refusal in order, then routing, then the first taken id |
| Gateway.BatchLandsIff | src/gateway/gateway.py:497-547 | that condition is what the checks in order come to, for a batch of any length |
| Gateway.AgentGateway.SubmitAssertion | src/gateway/gateway.py:549-580 | accepted exactly when the role holds authority for the class, else one recorded denial |
| Gateway.AllowedOnlyWhenListed | src/schema/iam_policy.py:208-240 | default deny for any table: whoever is let through is a known role, under its own account, listed for the collection and not denied it |
| Gateway.AllowedIff | src/schema/iam_policy.py:208-240 | who is let through, and as whom: exactly the caller bound to the role or identity, when the table lists the collection for it, does not deny it, and the first listing's required filter is met by the session |
| Gateway.RefusalNamesThePrincipal | src/gateway/gateway.py:161-200 | a refusal is an identity refusal exactly when nobody can be bound, and otherwise names the bound principal |
| Gateway.SessionWall | src/gateway/gateway.py:256-275 | every document a session-scoped read returns carries the value the session proved |
| Gateway.ScopedCollectionsAreReadOnly | src/gateway/gateway.py:464-467 | a collection scoped for every role cannot be written by any |
| Gateway.LeaseRefusalRecordedIff | src/gateway/gateway.py:436-462 | a failed lease check is a recorded denial if and only if the lease id is not the empty string |
| Gateway.BatchStoresEveryWriteIff | src/gateway/gateway.py:541-547 | a batch of free ids stores every one of its writes if and only if no two of them disagree on one id |
| Gateway.InconsistentBatchLosesAWrite | src/gateway/gateway.py:541-547 | a batch that succeeds and loses its first write |
| Gateway.CredentialBatchesStandAlone | src/schema/iam_policy.py:160-206 | a batch that mixes credentials with anything kept elsewhere spans two databases and is refused whole |
| Gateway.SharedAndDomainNeverMix | src/schema/iam_policy.py:160-206 | neither can a batch mix shared data with a domain's own |
| Gateway.StoredDocumentsStay | src/gateway/gateway.py:488-495 | over any run every stored document stays, unchanged and in place |
| Cascade.RevocationPropagator.TerminateGrant | src/agents/revocation_propagator.py:262-311 | one grant: drafted, dated, then its event and its row committed together or not at all; done whenever policy, routing and lease let the pair pass |
| Cascade.RevocationPropagator.TerminateAffected | src/agents/revocation_propagator.py:204-311 | phase 1 over the grants in id order: store, count and affected list; completes whenever policy, routing and lease pass, ids taken or not |
| Cascade.RevocationPropagator.DeliverPendingNotices | src/agents/revocation_propagator.py:334-379 | every owed row is delivered in grant id order and yields its own receipt; completes whenever policy and lease pass, notices already there or not |
| Cascade.RevocationPropagator.ExecuteRevocationCascade | src/agents/revocation_propagator.py:120-332 | the whole call: its new store and its report tied to the store it started from; it completes whenever the role is allowed its three collections, grants and outbox share a database, and no ledger is attached or the lease is active at every reading; nothing stored before is disturbed however it ends |
| CascadeTheorems.Phase1Shape | src/agents/revocation_propagator.py:262-311 | phase 1 appends exactly one revoked event and one row per selected grant whose ids are free, in grant id order, and counts them |
| CascadeTheorems.ExactEffect | src/agents/revocation_propagator.py:120-332 | grants and outbox grow by exactly those pairs, notices only by delivery, no other collection moves |
| CascadeTheorems.AddedEvents | src/agents/revocation_propagator.py:277-290 | every added event is a revocation of this work, for a selected grant and its counterparty, dated after the cascade's instant |
| CascadeTheorems.NoGrantSurvives | src/resolve/evaluator.py:34-56 | the closed-window selection and the currency test meet: no active grant of any later view admits a request at or above the revoked use |
| CascadeTheorems.Finality | src/agents/revocation_propagator.py:204-311 | in every later store without a new grant on the work, for every counterparty and every later instant, no request at or above the revoked use is permitted |
| CascadeTheorems.FinalExactlyWhenClear | src/agents/revocation_propagator.py:291-311 | the use is withdrawn from everyone, at once and in every later store without a new grant, if and only if no selected grant's ids were taken |
| CascadeTheorems.SkippedGrantStillPermits | src/agents/revocation_propagator.py:307-311 | a selected grant skipped as a collision still permits its own scope at some instant from the cascade on |
| CascadeTheorems.RetryCollides | src/agents/revocation_propagator.py:307-311 | after a grant was terminated, the same operation finds its ids taken in every later store |
| CascadeTheorems.RetryReturnsTheReceipts | src/agents/revocation_propagator.py:313-379 | a second call under the operation id of a completed one, on any store grown from it, reports that id and returns every receipt the first returned |
| CascadeTheorems.RetryCascade | src/agents/revocation_propagator.py:120-379 | such a retry completes whenever policy and lease pass, however much of the first call's work it finds done |
| CascadeTheorems.UnnamedCallsAreTwoOperations | src/agents/revocation_propagator.py:145 | calls without an operation id, or with the empty one, report the ids drawn for them, so two calls are two operations |
| CascadeTheorems.Frame | src/agents/revocation_propagator.py:244-253 | grants not terminated resolve identically before and after, and every grant does at every instant up to the cascade's |
| CascadeTheorems.UntouchedGrantsStillPermit | src/agents/revocation_propagator.py:244-253 | whatever such a grant permitted it still permits |
| CascadeTheorems.EndsExactlyTheExposed | src/agents/revocation_propagator.py:244-311 | of the active grants any counterparty's reader sees, the call ends exactly those at or above the revoked use whose window is open and whose ids are free |
| CascadeTheorems.TerminatedScopesAreWhatWasLost | src/agents/revocation_propagator.py:327 | terminated_scopes is exactly the set of uses some selected grant permitted, and covers derived_scopes whenever any grant was affected |
| CascadeTheorems.FreshRunReportsExactly | src/agents/revocation_propagator.py:313-379 | a first, uninterrupted call returns one receipt per affected grant in order, replays nothing, and each drafted text stands in the grant's stored notice unless that notice's id was taken before the call |
| CascadeTheorems.ReplayedCountsLeftovers | src/agents/revocation_propagator.py:316-321 | replayed_effects is exactly the number of rows the operation already owed when the call began |
| CascadeMachine.StepKeepsInv | src/agents/revocation_propagator.py:206-379 | every step of every attempt keeps rows and events paired, notices backed by rows, keys unique and attempts' bookkeeping truthful |
| CascadeMachine.EventIffRow | src/agents/revocation_propagator.py:206-311 | a revoked event exists under an operation's id for a grant if and only if the owed row does |
| CascadeMachine.EffectsAreExactlyOnce | src/agents/revocation_propagator.py:206-379 | in every reachable state at most one event, row and notice per operation and grant, event exactly with row, notice only with its row and carrying the row's text |
| CascadeMachine.EffectHappensOnce | src/gateway/gateway.py:497-547 | over any run, retries and races included, at most one step ever makes a given effect |
| CascadeMachine.FinishedDischargesWhatItRead | src/agents/revocation_propagator.py:334-379 | an attempt that finished has delivered every row its operation owed when it read the outbox |
| CascadeMachine.FinishedAttemptIsComplete | src/agents/revocation_propagator.py:206-379 | for every grant a finished attempt selected: a revoked event of that grant stands under the operation's id, and that grant's own notice does, if and only if the row there is not an overlapping operation's; whoever committed them |
| CascadeMachine.SeparatedAttemptDelivers | src/agents/revocation_propagator.py:334-379 | when no other operation in the outbox overlaps past a colon, every selected grant is terminated and has its own notice |
| Overlap.OverlapLeavesAGrantActive | src/schema/revocation.py:40-49 | a concrete run: a worker of one operation dies before delivering, an attempt of an operation whose id it extends finishes, and its selected grant is neither terminated nor noticed and still folds to active |
| RunFinality.ClearIff | src/agents/revocation_propagator.py:291-311 | in any reachable store a grant's pair of ids is free exactly when no row has its operation-and-grant text |
| RunFinality.FreshOperationIsClear | src/agents/revocation_propagator.py:291-311 | an operation id that overlaps no stored row's finds every grant's ids free |
| RunFinality.FreshOperationIsFinal | src/agents/revocation_propagator.py:204-311 | a completed call under such an id, begun in any reachable state, is final in every later store without a new grant |
| RunFinality.WithdrawnIffSelectedEnded | src/agents/revocation_propagator.py:204-311 | with no grant on the work since an attempt's snapshot, the use is withdrawn from everyone if and only if no grant the attempt selected is still active |
| RunFinality.FinalityOverRuns | src/agents/revocation_propagator.py:204-379 | over any interleaving, once an attempt finished, in every state with no grant on the work since its snapshot nobody may use what was revoked, provided no overlapping operation stands under its ids and what ended the grants is dated after what it read |
| TimedRuns.FinalityOnAClock | src/agents/revocation_propagator.py:204-379 | over any interleaving on a clock: an attempt whose selected grants were free, with no draft of its operation pending, when it read the log, is final once finished, in every later state without a new grant, for every counterparty, every as-of instant from then on and every instant of evaluation |
| TimedRuns.EndedOnlyLater | src/agents/revocation_propagator.py:262-311 | whatever comes to stand under an operation's ids after a moment at which it had nothing pending is dated after that moment |
| TimedRuns.FreshOperationIsOwn | src/agents/revocation_propagator.py:120-204 | the first attempt of an operation whose id overlaps no stored row's and no other attempt's meets those conditions |
| ColonFreeRuns.ColonFreeRunsAreSeparated | src/schema/revocation.py:40-49 | in every state of a run all of whose operation ids are colon-free, no row of another operation can share an id with one |
| ColonFreeRuns.ColonFreeAttemptDelivers | src/agents/revocation_propagator.py:206-379 | in such a run a finished attempt has terminated and notified every grant it selected |
| ColonFreeRuns.ColonFreeFinality | src/agents/revocation_propagator.py:204-379 | in such a run on a clock an attempt whose operation id no other attempt carries when it reads the log is final once finished, in every later state without a new grant, for every counterparty and as-of instant from then on |
| CascadeRefinement.UninterruptedCallIsARun | src/agents/revocation_propagator.py:120-379 | whatever a completed call did and returned is a run of the step machine in which nobody else moved |
| CascadeRefinement.CallIsARun | src/agents/revocation_propagator.py:120-379 | from any typed store and beside any attempts, the call's effect is reached by steps of the machine in which only it moves |
| Lease.LeaseLedger.Append | src/supervisor/lease.py:72-76 | appends, or refuses a duplicate event id and changes nothing; ids stay unique |
| Lease.LeaseLedger.Issue | src/supervisor/lease.py:78-87 | the ledger gains exactly the issued event with its expiry |
| Lease.LeaseLedger.Revoke | src/supervisor/lease.py:89-98 | the ledger gains exactly the revoked event, with the agent and task folded so far |
| Lease.LeaseLedger.Release | src/supervisor/lease.py:100-109 | the ledger gains exactly the released event |
| Lease.LeaseLedger.State | src/supervisor/lease.py:111-131 | the fold of one lease's events, then expiry |
| Lease.LatestEventDecides | src/supervisor/lease.py:111-131 | with unique event ids, active if and only if the lease's greatest event by (instant, id) is an issue not past its expiry |
| Lease.StateFollowsLatest | src/supervisor/lease.py:111-131 | agent, task, status, expiry and reason of a lease are those of its greatest event, and an issue past its lifetime is expired |
| Lease.IssuedLeaseLives | src/supervisor/lease.py:78-87 | a lease issued under a new id is active exactly until its lifetime has run out |
| Lease.StopsNameTheHolder | src/supervisor/lease.py:89-109 | a revocation or release is dated now and names the agent and task of the lease's greatest event, `unknown` where that names none |
| Lease.StoppedLeaseFoldsActiveIff | src/supervisor/lease.py:111-131 | some instant folds the lease to active if and only if an issue sorts after every revocation and release of it |
| Lease.NeverActiveAgain | src/supervisor/lease.py:111-131 | once a known lease is not active, no later event but a new issue, and no later instant, makes it active, whatever the clocks say |
| Lease.TieRevivesRevokedLease | src/supervisor/lease.py:115-116 | at one shared instant a revoked lease can fold to active |
| Supervisor.Supervisor.RecordFailure | src/supervisor/supervisor.py:182-196 | count, breaker and one abandoned event |
| Supervisor.Supervisor.ExecuteBoundedTask | src/supervisor/supervisor.py:61-147 | a value is returned if and only if the call recorded no abandonment, and is then what the worker returned; TimeoutError exactly for the deadline and the tripped breaker, told apart; an error only as the worker raised it; book and ledger after the call; the lease is issued then stopped, and is dead at every instant by the time the caller sees anything; an open breaker starts nothing |
| Supervisor.BreakerOpenIff | src/supervisor/supervisor.py:182-187 | an agent's breaker is open if and only if its calls contain a run of threshold failures with no success between, whatever other agents did |
| Supervisor.RefusedExactlyAfterAStreak | src/supervisor/supervisor.py:72-82 | a call is refused, its task not started, exactly when such a run lies before it |
| Supervisor.OpenStaysOpen | src/supervisor/supervisor.py:186-187 | an open breaker stays open whatever is called |
| Supervisor.AbandonedEventsAccountForEveryFailure | src/supervisor/supervisor.py:189-196 | one event per failure and one per refused call, told apart by reason |
| Supervisor.AbandonedIdsNumberTheEvents | src/supervisor/supervisor.py:75-190 | event ids number the events, so none repeats |
| Fencing.StepKeepsInv | src/supervisor/supervisor.py:84-147 | every step of supervisors and workers keeps the ledger disciplined and every passed write backed by a check taken while active |
| Fencing.CommittedWritesPassedWhileActive | src/gateway/gateway.py:425-495 | every committed write passed a check taken while its lease folded to active, before any stop of it |
| Fencing.LateWritesNeverCommit | src/gateway/gateway.py:425-462 | a write whose check had not been taken when its lease was stopped never commits |
| Fencing.NobodySeesAnEndingBeforeTheFence | src/supervisor/supervisor.py:118-134 | no caller sees the TimeoutError, or any outcome, while the lease is active, nor is it ever active afterwards |
| Fencing.CheckedWriteCanLandAfterTheTimeout | src/gateway/gateway.py:464-495 | a run in which a write checked in time commits after the TimeoutError is visible |
| FencingRefinement.CheckIsEnforceLease | src/gateway/gateway.py:425-462 | the gateway's lease check passes exactly when the protocol's check does, and refuses exactly when it does |
| FencingRefinement.LeasedWrite | src/gateway/gateway.py:425-495 | a write through the gateway, with or without a lease presented, is the protocol's check then its commit when it lands, its check alone when the lease is refused or the id is taken, no step when the policy refuses or no lease is presented; with none it never lands |
| FencingRefinement.ChainExtendsRun | src/gateway/gateway.py:425-495 | those steps continue any run that reached the same ledger, so every theorem about runs holds of them |
| Negotiation.ClampToPolicy | src/schema/negotiation.py:67-172 | the outcome, the offer and the list of moved dimensions, whose meaning the rows below decide |
| Negotiation.RejectedIff | src/schema/negotiation.py:80-139 | which proposals are rejected: as prohibited exactly the listed uses, as incomparable exactly those of the rest whose use and the maximum contain neither the other, for territory exactly those of the rest that share none |
| Negotiation.RejectedAlike | src/schema/negotiation.py:80-139 | so two requests for one use and territory are rejected alike, whatever their commerciality, model class, attribution and window |
| Negotiation.MovedIffChanged | src/schema/negotiation.py:90-160 | a counteroffer lists a dimension as moved exactly when it differs from the request there, reading an empty territory list as everywhere, apart from an unbounded request against an empty allowed list, which is listed although the offer reads the same |
| Negotiation.OfferWithinPolicyIff | src/schema/negotiation.py:90-160 | an offer lies under the ceiling except for the empty territory list, is not of a prohibited use except through a prohibited maximum, and carries the policy's attribution |
| Negotiation.OfferInsideRequestIff | src/schema/negotiation.py:110-113 | an offer stays inside the request if and only if the request's model class covers the policy's |
| Negotiation.OfferIsGreatestLowerBound | src/schema/negotiation.py:90-160 | every scope inside both request and policy lies inside the offer, and the offer is itself such a scope exactly under the two conditions |
| Negotiation.SomethingFitsIff | src/schema/negotiation.py:67-160 | a scope for an unbanned use inside both request and policy exists if and only if a use, a model class, a territory and a window are left on both sides |
| Negotiation.RejectionIsFinalIff | src/schema/negotiation.py:81-139 | a territory rejection is final; an incomparable or a prohibited one passes a scope over exactly under the stated conditions |
| Negotiation.OfferIsAFixedPointIff | src/schema/negotiation.py:67-172 | proposing the offer back is agreed unchanged, unless one of the two traps was sprung |
| Negotiation.AgreedIffNothingMoved | src/schema/negotiation.py:162-167 | agreed if and only if the offer is the request, an empty territory list written as WW |
| Negotiation.MalformedIff | src/schema/negotiation.py:148-160 | a proposal not rejected fails validation exactly when the day count is negative |
| Negotiation.ClampThenDecide | src/schema/negotiation.py:90-160 | whatever is later permitted under clamped grants lies inside the artist's ceiling on every dimension, and carries the attribution duty |
| Negotiation.NeverPermitsProhibitedIff | src/schema/negotiation.py:80-106 | no prohibited use is ever permitted under a set of grants if and only if none lies at or below the use of a current one |
| Examples.EmptyTerritoryOffersTheWorld | src/schema/negotiation.py:126-129 | a concrete policy without territories whose counteroffer to a worldwide request means everywhere |
| Examples.ProhibitedMaximumIsOffered | src/schema/negotiation.py:81-106 | a concrete policy whose maximum is prohibited offers the prohibited use, and rejects its own offer |
| Examples.CounterofferOutsideTheRequest | src/schema/negotiation.py:110-113 | a concrete request and policy of incomparable model classes whose counteroffer lies outside the request |
| Examples.IncomparableRejectionPassesAScopeOver | src/schema/negotiation.py:93-106 | a concrete order, policy and request rejected as incomparable although a scope inside both exists |
| Examples.ShippedIncomparableRejectionIsFinal | src/schema/lattice.py:14-28 | under the shipped tables no rejection as incomparable passes a scope over, whatever the policy and the request |
| Examples.ProhibitedRejectionPassesAScopeOver | src/schema/negotiation.py:80-89 | a concrete policy and request on the shipped tables rejected as prohibited although the policy's maximum would have been acceptable |
| Examples.AgreedReachesProhibited | src/schema/negotiation.py:80-90 | a concrete request agreed outright with a prohibited use below it |
| Examples.GrantDoesNotPreventOutside | src/agents/consent_arbiter.py:43-68 | concrete classes, a grant among them, for which the code establishes an outside access |
| Examples.RetryAfterRegrantIsNotClear | src/agents/revocation_propagator.py:307-311 | a concrete log, granted, terminated and granted again, on which a retry of the old operation selects the grant and finds its id taken |
| Examples.ShippedTablesAreOrders | src/schema/lattice.py:14-28 | the shipped tables are orders, so the theorems about orders are about them |
| Adjudication.FindingsDependOnlyOnClasses | src/agents/consent_arbiter.py:58-82 | findings depend only on which assertion classes occur |
| Adjudication.EstablishedIff | src/agents/consent_arbiter.py:58-82 | outside exactly when an access was observed and either it is called inconsistent or a grant is denied and none asserted; within exactly when it was observed, a grant is asserted and nothing speaks against it |
| Adjudication.FindingsCiteTheirGrounds | src/agents/consent_arbiter.py:68-82 | an established finding cites exactly the assertions of the classes it rests on; one not established cites none |
| Adjudication.NeverBoth | src/agents/consent_arbiter.py:68-82 | outside and within are never both established, and neither without an observed access |
| Adjudication.DocumentationDiffersIff | src/agents/consent_arbiter.py:43-48 | exactly when the code's outside finding departs from its documentation |
| Adjudication.RevocationInitiatedChangesNothing | src/agents/consent_arbiter.py:58-99 | appending REVOCATION_INITIATED leaves the whole decision, bases included, the same |
| Adjudication.EveryDecisionKeepsTheBoundary | src/schema/assertion.py:96-110 | every decision passes its own validator: the training question is asked and never answered |
| IncidentEngine.IncidentEngine.Transition | src/incident/engine.py:84-104 | a lifecycle event is appended, numbered and stored exactly when it moves forward, the arbiter may write and its id is free, and no other id is taken |
| IncidentEngine.IncidentEngine.ReadObservation | src/incident/engine.py:133-149 | read exactly when the evidence agent may; the observation is the first stored access row of the record whenever that row has what an observation needs, or there is none |
| IncidentEngine.IncidentEngine.ActiveAt | src/incident/engine.py:178-185 | answered exactly when the negotiator may read inside the principal's session: the principal's grants on the work that fold to active at the observed instant |
| IncidentEngine.ActiveThenIff | src/incident/engine.py:178-185 | an event is among those exactly when it is a grant on the work and the greatest of its grant by that instant |
| IncidentEngine.IncidentEngine.AskCustodian | src/incident/engine.py:203-226 | the custodian speaks exactly when the work's first stored row declares a policy that forbids automation |
| IncidentEngine.IncidentEngine.Investigate | src/incident/engine.py:166-241 | which classes the walls add: granted or not, forbidden exactly by the stored policy of the work, advocate or not, each within authority and in its own voice; answered whenever the custodian may read and each role may assert what it speaks for |
| IncidentEngine.IncidentEngine.Contain | src/incident/engine.py:252-293 | the freeze is stored, grants move only by one cascade of the first active grant's use under the incident's operation id, with the cascade's whole contract, and at most one REVOCATION_INITIATED is appended; done whenever freeze, cascade and assertion are permitted |
| IncidentEngine.ContainmentEndsExactly | src/incident/engine.py:270-277 | of the grants active on the work containment ends exactly those at or above the first one's use that are open and free; the others stay active |
| Survivor.BothActiveBefore | src/incident/engine.py:178-185 | a concrete store: both grants active for the reader, the wider first, so its use is what containment revokes |
| Survivor.NarrowerGrantSurvivesContainment | src/incident/engine.py:270-277 | after any completed containment of that store the wider grant has ended and the narrower is the one active grant |
| IncidentEngine.IncidentEngine.Close | src/incident/engine.py:297-337 | the incident is closed if and only if its manifest can be signed, the arbiter may write, the course may still move and both ids are free; the manifest binds observation, assertions and decision, is signed over its other members and stored before the closing event; a record that cannot be signed raises and stores nothing |
| IncidentEngine.IncidentEngine.Run | src/incident/engine.py:117-344 | a run closes whenever the record is there and every text reads, every role may do its part, no ledger is attached and none of the incident's ids is taken; it ends without an observation exactly when the evidence agent may read and finds none; it never attempts an illegal transition; a closed one rests on the stored access record, went through containment exactly when outside was established, which is exactly when no grant of the principal folded to active at the observed instant or the stored policy forbids automation, moved grants only through that containment, and left a well-recorded incident, each assertion in its own voice |
| IncidentEngine.CourseAscends | src/schema/incident.py:27-30 | the course of a closed run strictly ascends and contains containment exactly when outside |
| Documents.StampsApart | src/schema/incident.py:31-50 | the texts of two instants are one spelling only of one instant |
| Documents.HashedBytesTellApart | src/schema/incident.py:92-98 | the bytes observations, and lists of assertions, are hashed over are equal only for equal ones |
| Documents.ManifestIff | src/schema/incident.py:57-89 | two manifests are one document up to spelling exactly when they are, member by member, equal up to how their timestamp strings are written |
| Documents.BytesAgreeIff | src/schema/signing.py:135-143 | the signed bytes of two manifests agree if and only if each is a re-spelling of the other, and a re-spelling of what can be signed can be |
| Package.VerifyPackage | src/incident/package.py:72-148 | all checks pass if and only if the package is signed and self-consistent; the checks after the first, if and only if it is self-consistent; no report exactly when the manifest cannot be normalised |
| Package.ExportedPackageVerifies | src/incident/package.py:45-69 | a well-recorded incident exports a package whose content checks all pass, and whose signature check passes exactly when it was signed |
| Package.TamperingIsDetected | src/incident/package.py:72-148 | under a genuine package's key and signature, and without a hash collision between the two, a package verifies if and only if its manifest is a re-spelling of the genuine one with the same ruling, and its assertions and observations are the genuine ones |
| Package.RespeltAgentVerifies | src/incident/package.py:84-102 | of every genuine package whose observation declares a certain timestamp as its agent, the manifest's copy re-spelt passes every check |
| Legibility.SignableIff | src/schema/signing.py:101-143 | a manifest can be signed exactly when every text it binds, through all its nested records, either is a timestamp or does not look like one |
| Respelling.RespeltPackageVerifies | src/incident/package.py:45-148 | a concrete hash, key and signature under which two packages with different manifests verify |
| Package.UnreadableAgentCannotBeSigned | src/incident/package.py:61-64 | a manifest with an observation whose declared agent has the shape and is no timestamp can be neither signed, exported nor verified |
| Package.PlaceholderIsNoEnvelope | src/schema/signing.py:59-75 | a placeholder is never taken for a signature |
| Market.MarketDesk.Judge | src/api/demo_sandbox.py:557-573 | each ground for refusal is listed exactly when it holds |
| Market.MarketDesk.RequestLicense | src/api/demo_sandbox.py:513-603 | a refusal appends nothing; a grant appends one event; it binds on the re-read log exactly when some latest grant there covers a point at the instant and holds the request; the request fails exactly when the log may not be read, or nothing speaks against it and the event cannot be written |
| Market.ClosedOffersStayClosed | src/api/demo_sandbox.py:555-562 | after a cascade terminated a grant held at H, every later request on the work for a use H contains meets a closed offer and is refused, whatever was appended since |
| RateLimit.RateLimiter.Admit | src/api/demo_sandbox.py:91-98 | admits exactly when fewer than thirty admissions lie in the last hour of the full history, though only a pruned list is kept |
| RateLimit.NoWindowExceedsTheLimit | src/api/demo_sandbox.py:91-98 | no half-open hour, wherever it starts, holds more than thirty admissions of one address |
| Migration.Copy | scripts/migrate_domain_collections.py:149-157 | copies what the snapshot of the destination lacks, overwrites nothing, stops at the first collision or anywhere |
| Migration.VerifyCopy | scripts/migrate_domain_collections.py:168-171 | nothing missing and nothing differing if and only if every snapshotted document is in the destination with the same text |
| Migration.DeleteInBatches | scripts/migrate_domain_collections.py:179-185 | removes only snapshotted ids, all of them when it completes, stopping anywhere between batches |
| Migration.MigrateCollection | scripts/migrate_domain_collections.py:134-190 | however and wherever it ends every document is conserved, and the source loses one only after all were found in the destination; given enough time and no conflict it completes |
| Migration.MigrationConserves | scripts/migrate_domain_collections.py:134-190 | over any sequence of runs, interruptions, re-runs and appends nothing ever in the source is lost and nothing in the destination changes |
| Migration.CutoverConserves | scripts/migrate_domain_collections.py:100-190 | any number of workers interleaved write by write with each other and with writers on both sides, dying anywhere: nothing ever in the source is lost, what no worker had read stays there, the destination only grows |
| Timestamps.OrdinalOfCivil | src/schema/signing.py:130-131 | every day count up to year 9999 is the ordinal of one valid civil date |
| Timestamps.CivilOfOrdinal | src/schema/signing.py:130-131 | every valid civil date is recovered from its day count |
| Timestamps.ReadOfRender | src/schema/signing.py:127-131 | reading the canonical text of an instant gives the instant back, to the microsecond |
| Timestamps.RenderShowsTheWallClock | src/schema/signing.py:131 | the canonical text of an instant is its UTC date, time and fraction, for every date and time |
| Timestamps.OffsetIsSubtracted | src/schema/signing.py:130-131 | a wall clock with any offset becomes the UTC text of that wall clock minus the offset |
| Spellings.IsTimestampIff | src/schema/signing.py:95-132 | a string is a timestamp if and only if it is one of the spellings: a valid date and time of day, one of three separators, any digits of fraction, Z, z or an offset below a day with or without a colon |
| Spellings.SpellingNormalizes | src/schema/signing.py:127-132 | every such spelling normalises to the text of its local time plus its fraction, cut at microseconds, minus its offset |
| Timestamps.NormalizeIdempotent | src/schema/signing.py:101-132 | normalising a string twice is normalising it once |
| Timestamps.NormalizeAgreesIff | src/schema/signing.py:101-132 | two strings normalise alike if and only if they are equal or spell one instant |
| Timestamps.RaisesIff | src/schema/signing.py:127-132 | a string raises if and only if it has the shape and is no timestamp; of the strings that are none, exactly those without the shape pass untouched |
| Timestamps.ImpossibleDateRaises | src/schema/signing.py:127-130 | the 30th of February in the right shape raises |
| Timestamps.LeapSecondRaises | src/schema/signing.py:127-130 | a leap second, which RFC 3339 allows, raises |
| Timestamps.TrailingNewlineRaises | src/schema/signing.py:96-98 | a timestamp followed by a newline matches the pattern and then raises |
| Timestamps.DocumentIdempotent | src/schema/signing.py:101-132 | normalising an arbitrarily nested document twice is normalising it once |
| Timestamps.DocumentsAgreeIff | src/schema/signing.py:101-132 | two nested documents have one normal form if and only if they differ at most in how they spell instants |
| Timestamps.DocumentUntouchedIff | src/schema/signing.py:101-132 | a nested document raises exactly when some string in it has the shape and is no timestamp, and passes untouched exactly when every timestamp in it is canonical |
| CanonicalJson.QuotesApart | src/schema/signing.py:86-92 | an escaped string is read back from any text that begins with it, and what follows it |
| CanonicalJson.ValuesApart | src/schema/signing.py:86-92 | a text that begins with the canonical text of a value and then stops determines the value and the rest, however nested |
| CanonicalJson.JsonTellsApart | src/schema/signing.py:86-92 | two documents with one canonical JSON text are one document |
| CanonicalJson.SignedAlikeIff | src/schema/signing.py:135-143 | two documents are signed as one if and only if, signature apart, they differ at most in spelling |
| CanonicalJson.ListIsJoined | src/schema/signing.py:86-92 | a list is its elements' texts in order, separated by single commas, between brackets |
| CanonicalJson.ObjectIsJoined | src/schema/signing.py:86-92 | an object is its members, keys ascending, each key quoted before a colon, separated by single commas, between braces |
| CanonicalJson.ServedDocumentSignsAlike | src/schema/signing.py:135-143 | a document stored in normal form signs to the bytes it was signed with |
| Signing.PlaceholdersNeverVerify | src/schema/signing.py:285-294 | a missing or placeholder signature never verifies |
| Signing.VerifiesExactlyTheReSpellings | src/schema/signing.py:285-300 | a signature verifies on another document exactly when that is a re-spelling of the signed one; the fallback to raw bytes admits nothing more |

## Left out

- HTTP handlers, authentication, domain-service clients, Firestore and logging: the store is the gateway's own create-only in-memory one, with the atomic batch as one step.
- Real signatures and SHA-256: functions of strings and a sign/verify pair. UTF-8 encoding: canonical texts are compared as characters, so lone surrogates are not a case.
- Documents.StampsApart: an instant carries no offset, so it is written as its UTC text; one outside the range of a datetime is written as a signed number.
- Model-drafted text, lints and the interpreter: notice texts and interpreted scopes are arbitrary inputs, free to differ on every attempt.
- The cascade's `memory_bank_events` fallback, reached only when the work has no stored event.
- `execute_bounded_subprocess`, which neither consults nor resets the breaker; the agent runner and its standby; tracing; the registry; the memory bank; console, document and metric scripts.
- Wording: denial reasons, rationales, `clamped_dimensions` texts (the dimensions are modelled, their sentences are not), limitation lists and lifecycle details.
- RateLimit.RateLimiter.Admit: clock readings are whole microseconds, not floating-point seconds.
- Unicode digits: the timestamp pattern accepts them and the parser then refuses; the model reads ASCII digits only.
- Datetime range: window and cap arithmetic is on unbounded integers, except in `Timestamps`, where years end at 9999.
- The shipped policy and authority tables as data: every theorem is parametric in them.
- IncidentEngine.IncidentEngine.Run: the hash of the previous manifest is an input, because the choice of predecessor orders `closed_at` as text, which is not instant order.
- Documents.ManifestIff: members that are constant or not modelled elsewhere (version, limitations, trace id, claim limits, assertion instants) are left out of the documents.
- Package.VerifyPackage: parsing into typed models is left to the types, so an unparsable package is not a case.
- Supervisor.Supervisor.ExecuteBoundedTask: whether the worker answers before the deadline is an input; the thread itself is the subject of `Fencing`.
- Migration.MigrateCollection: appends by others between its own writes are left to `Migration.CutoverConserves`; the planning pass over several collections and the final record of the move are not modelled.
- Market.MarketDesk.RequestLicense: session, length and interpretation caps are not modelled.
- The seeded sandbox works, the guided `license` endpoint and the finite facts about the shipped tables: instances of the theorems above.
