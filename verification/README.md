# SwarmAuth: a verified model of authorization and accounting

SwarmAuth issues short-lived capability tokens, lets a holder narrow one once,
verifies the resulting chain at the tool, and charges every accepted call
against usage and budget records that verifiers may share through Redis. This
project models that core and proves what holds of it over every input, every
run and every interleaving.

## How it is organised

| files | what they hold |
|---|---|
| `Wrappers`, `Maps`, `JsonValues`, `TokenClaims` | JSON values and their equality, claims, wildcard coverage, optional limits |
| `Decimals`, `DecimalText`, `DecimalContext` | exact decimals, their text in Python and Node, the 1000-digit context |
| `Ledger`, `LedgerRuns`, `Admission` | which records a chain charges, one charge, the ideal ledger that forgets nothing, conservation, ceilings, the sliding window, and exactly which reservations are accepted |
| `MemoryTrackers`, `SharedIds` | the three in-memory trackers as functions, each proved to accept what the ideal ledger accepts |
| `UsageTracker`, `BudgetTracker`, `GoTracker` | the trackers themselves, as classes with mutable state, proved against those functions |
| `NodeLedger`, `NodeRuns` | the Node ledger with its own records, text sums and double-precision counts |
| `ContextLedger` | the Python ledgers adding in the 1000-digit context |
| `RedisProtocol`, `RedisLedger`, `RedisLedgerProof`, `RedisLedgerTheorems`, `RedisProgress`, `RedisCalls`, `Iteration` | WATCH / GET / re-check / MULTI-EXEC as a state machine of any number of clients over any kind of entry, the ledger of numbers on it, its invariant, its promises, progress, and how a call ends |
| `RedisTranslation`, `MixedLedger` | Python and Node clients sharing one store of text entries, related to the ledger of numbers |
| `Registry`, `Revocation`, `Verification`, `Acceptance`, `Authorization`, `Policy`, `Confinement`, `TrackerRuns`, `PooledBudget` | trust, revocation, verification, the execution boundary, issuer policy, the end-to-end theorem, the same through each tracker, and pooled budgets |
| `Approvals`, `ApprovalTheorems`, `ApprovalCalls` | single-use approvals as a state machine, the in-memory store, and how an authorize ends |
| `CanonicalJson`, `CanonicalProof`, `JsonReader`, `JsonRoundTrip`, `Base64Url` | the encodings signatures and digests rest on, and a JSON reader that inverts the text |

A method that changes state is proved equal to a function of the old state; the
theorems are about those functions. Refusals are modelled as results; every
`requires` on an operation is met by anything the source accepts as input.

## What is assumed of the environment

- There is one global clock that never goes back. Each `time.time()` is a reading of
  its own, and readings are real numbers, so the rounding of clock arithmetic in
  binary64 is not modelled. Theorems about windows need the clock to be past 1970.
- SHA-256 is injective on the texts it is applied to: ledger keys and request digests
  stand for those texts. Ed25519 is abstract: a token records the one key, if any,
  under which its signature verifies.
- A token id (`jti`) determines its claims and all verifiers use the same budget
  rules, wherever a statement mentions `known`. `SharedIds.SiblingsShare` does
  without this.
- Approval ids are never generated twice.
- Redis removes a key no earlier than its TTL says and no later than the first
  command that touches it; EXEC aborts when a watched key was written or expired
  since WATCH. For approvals, keys may vanish at any time.
- Amounts and limits are the decimals that `str` (Python) or `String` (JavaScript)
  print for the number; both print the same decimal value.

The model follows the code on key choice: `swarmauth/token.py:234-247` tries only
the key named by `kid`, while the written description of `verify` with a key
registry says that every trusted key of the issuer is tried.

One documented expectation does not hold unconditionally. A revoked token, or a
child of a revoked parent, can be let through when no tracker is used: the window
check may read the clock just before `exp + 3` and the store lookup just after, when
the entry has been purged. `Authorization.UntrackedRevocationGap` and
`Authorization.UntrackedParentGap` give such calls and
`Authorization.UntrackedRevocation` the exact condition for both roles; with a
tracker it cannot happen (`Authorization.RevokedNeverCharged`).

## Model

| member | source | states |
|---|---|---|
| JsonValues.JsonEqualTransitive | swarmauth/token.py:516-524 | JSON equality composes, for arrays and objects of any depth, so a pin survives a chain of comparisons |
| JsonValues.JsonEqualSymmetric | swarmauth/token.py:516-524 | JSON equality is symmetric |
| JsonValues.JsonEqualReflexive | swarmauth/token.py:516-524 | every JSON value equals itself |
| JsonValues.NodeJsonEqualAgrees | js/src/index.js:511-521 | counting keys and looking up the left ones decides exactly what Python decides by comparing key sets |
| TokenClaims.CoverageExactly | swarmauth/token.py:163-170 | a capability is covered exactly when it is listed, or some entry is a prefix followed by `:*` and the capability starts with that prefix and `:` |
| TokenClaims.PinnedMinorExactly | swarmauth/budgets.py:109-112 | the pinned amount is n exactly when `amount_minor` is JSON-equal to the safe non-negative integer n |
| TokenClaims.IntSecondsTruncates | swarmauth/token.py:279-279 | whole seconds are the integer next to the reading on the side of zero |
| TokenClaims.CoverageTransitive | swarmauth/token.py:163-170 | what a narrowed set covers, the original set covers, wildcards included |
| TokenClaims.NotWiderMeansInside | swarmauth/token.py:173-183 | a limit is not wider exactly when every spend it allows the other allows too, absent limits included |
| TokenClaims.PinsKeptTransitive | swarmauth/token.py:300-302 | pins kept twice are kept |
| Decimals.AddExact | swarmauth/middleware.py:45-50 | aligning exponents and adding coefficients gives the true sum |
| Decimals.OrderExact | js/src/index.js:546-550 | comparing aligned coefficients decides the true order |
| DecimalText.NumeralValue | js/src/index.js:530-534 | what a numeral is worth: whole part plus fraction, scaled by its power |
| DecimalText.ExponentForms | js/src/index.js:530-534 | `w.fe-p` with `e` or `E` and plus, minus or no sign is the digits `wf` at exponent plus or minus p, less the fraction digits |
| DecimalText.PointlessExponentForms | js/src/index.js:530-534 | the same without a point, so that `1e-7` is one ten-millionth |
| DecimalText.CanonicalUnique | js/src/index.js:536-544 | a value has only one canonical decimal text |
| DecimalText.PythonTextExact | swarmauth/middleware.py:53-55 | `_decimal_text` prints the canonical form and reading it back gives the same value |
| DecimalText.AddAmountsExact | js/src/index.js:530-544 | for all plain or exponent-form decimals, `addAmounts` prints the true sum in canonical form |
| DecimalText.AmountExceedsExact | js/src/index.js:546-550 | `amountExceeds` decides the true order |
| DecimalText.NodeAndPythonAgree | js/src/index.js:536-544 | Node and Python print the same text for a sum |
| DecimalContext.FitsMeaning | swarmauth/middleware.py:45-50 | what the bound on amounts says about their value |
| DecimalContext.ContextSumIsNearest | swarmauth/middleware.py:45-50 | a sum in the context is exact where it fits, and otherwise its leading digits rounded half-even |
| DecimalContext.ContextNeverRounds | swarmauth/middleware.py:45-50 | a context of p digits never rounds a running total when the digits of count, size and scale fit into p |
| DecimalContext.DecimalSumExact | swarmauth/middleware.py:45-50 | with 1000 digits, up to 10^300 amounts covering all finite binary64 values are summed exactly |
| ContextLedger.UsageContextExact | swarmauth/middleware.py:249-259 | over up to 10^300 calls `UsageTracker` with the context decides and stores what it would with exact sums |
| ContextLedger.BudgetContextExact | swarmauth/budgets.py:121-136 | so does the budget ledger, which also reads every total back from its text |
| ContextLedger.BudgetContextDecidesIdeally | swarmauth/budgets.py:121-149 | with context, text and purging together, the budget ledger accepts exactly what exact numbers that are never forgotten accept |
| Ledger.RecordsDistinct | swarmauth/budgets.py:85-119 | the records of a chain have pairwise different keys; token and budget records never alias |
| Ledger.RecordsTimeless | swarmauth/budgets.py:176-183 | records computed before and after the reads are the same records |
| Ledger.RecordsUnexpired | swarmauth/budgets.py:89-92 | a chargeable chain has no record whose expiry has passed |
| LedgerRuns.ReserveAtKey | swarmauth/budgets.py:141-149 | an accepted reservation charges exactly the records it names, once each, and leaves every other entry alone |
| LedgerRuns.Conservation | swarmauth/budgets.py:121-149 | every entry equals the count and the exact sums of all accepted reservations that named it |
| LedgerRuns.LifetimeCeiling | swarmauth/budgets.py:121-149 | over any run, calls, amount and minor units charged to a token or budget stay within its limits |
| LedgerRuns.WindowRate | swarmauth/middleware.py:247-261 | any closed 60-second window holds at most `rate_limit_per_min` acceptances |
| LedgerRuns.RateIsLifetimeCap | swarmauth/middleware.py:247-261 | when all acceptances of a token fall within 60 seconds, the stored stamps are all of them and the rate limit caps their total |
| Admission.ChargeableExactly | swarmauth/budgets.py:85-119 | a chain is chargeable exactly when its ids differ, no token expired, and its budget is known, live, open to the root issuer and pinned in amount and currency |
| Admission.ChargesExactly | swarmauth/budgets.py:85-119 | it then charges one record per token and the named budget its pinned amount, and no other key |
| Admission.AdmitsExactly | swarmauth/budgets.py:121-149 | after any history a reservation is accepted if and only if every record it charges has room, counted over the whole history |
| MemoryTrackers.BudgetRunRefines | swarmauth/budgets.py:141-149 | the ledger that purges last accepts, in every run, exactly what a ledger that forgets nothing accepts |
| MemoryTrackers.BudgetConservation | swarmauth/budgets.py:77-149 | a held record equals the sum and count of all reservations the tracker accepted naming it, a charged record is missing only after its expiry, and lifetime spend stays within the budget |
| MemoryTrackers.UsageRunRefines | swarmauth/middleware.py:229-262 | the tracker that purges first and keeps the longest retention accepts the same |
| MemoryTrackers.GoRunRefines | go/enforcement.go:35-80 | Go's reservation by whole seconds accepts the same |
| MemoryTrackers.TrackersAgree | swarmauth/middleware.py:229-262 | the three trackers accept exactly the same reservations in every run with a non-decreasing clock |
| SharedIds.SiblingsShare | swarmauth/middleware.py:229-262 | calls and amount charged to a parent through any number of children stay within its limits even if tokens share a jti |
| UsageTracker.TokenUsage.Charge | swarmauth/middleware.py:257-261 | one more call on a usage object, with the stamps of the window and the longest retention |
| UsageTracker.UsageTracker.PurgeExpired | swarmauth/middleware.py:221-224 | exactly the entries whose retention passed are dropped |
| UsageTracker.UsageTracker.Prepare | swarmauth/middleware.py:243-256 | the limit checks of the whole chain, before anything is charged; missing tokens get new objects |
| UsageTracker.UsageTracker.CommitAll | swarmauth/middleware.py:257-262 | every prepared object is charged in place from the usage it had before, none twice |
| UsageTracker.UsageTracker.CheckAndRecordChain | swarmauth/middleware.py:229-262 | decision and new contents are those of the tracker function, through heap objects updated in place |
| BudgetTracker.PythonCodecExact | swarmauth/middleware.py:45-55 | storing totals as text and reading them back loses nothing |
| BudgetTracker.StoredPendingExact | swarmauth/budgets.py:121-136 | charging a record stored with a text total is charging the record with the exact number |
| BudgetTracker.BudgetUsageTracker.RecordsFor | swarmauth/budgets.py:85-119 | the records of a chain, or the refusal, built in a loop |
| BudgetTracker.BudgetUsageTracker.PendingEntries | swarmauth/budgets.py:141-149 | the new entry of every record, allowed exactly when no limit refuses |
| BudgetTracker.BudgetUsageTracker.CheckAndRecordChain | swarmauth/budgets.py:141-149 | all records charged and expired ones purged, or nothing changed |
| GoTracker.RecentStamps | go/enforcement.go:61-66 | the loop keeps exactly the stamps inside the window, in order |
| GoTracker.MemoryUsageTracker.Next | go/enforcement.go:52-71 | one token's new usage, refused exactly when it expired or a limit is exceeded |
| GoTracker.MemoryUsageTracker.Collect | go/enforcement.go:48-75 | duplicates and refusals of the whole chain are found before anything is written |
| GoTracker.MemoryUsageTracker.Reserve | go/enforcement.go:35-80 | the whole chain is charged, or only expired entries are removed |
| NodeLedger.RoundingKeepsOrder | js/src/redis.js:53-58 | rounding a sum of two safe integers to a double never changes its comparison with a safe limit |
| NodeLedger.RoundsHalfToEven | js/src/redis.js:53-53 | above 2^53 an even sum is exact and an odd one goes to the neighbouring multiple of four |
| NodeLedger.NodeAlikePython | js/src/redis.js:51-56 | Node's text sums and comparisons agree with Python's decimals on every numeral |
| NodeLedger.NodePendingAgrees | js/src/redis.js:50-60 | Node and Python accept the same charges and produce the very same entry |
| NodeLedger.NodeRecordsAgree | js/src/redis.js:28-48 | Node's own records function gives the same records or the same refusal as Python's |
| NodeRuns.NodeAndPythonLedgersAgree | js/src/redis.js:28-70 | over any run of fewer than 2^53 calls the two ledgers decide alike and store the same entries |
| NodeRuns.PythonStepMeans | swarmauth/budgets.py:141-149 | a step on stored text is a step of the ledger of numbers |
| NodeRuns.PythonRunMeans | swarmauth/budgets.py:141-149 | a run on stored text decides as the ledger of numbers, and its entries are worth what that holds |
| RedisLedgerProof.RunKeeps | swarmauth/budgets.py:169-194 | the protocol invariant holds after every run of any number of clients |
| RedisLedgerProof.TtlReachesExpiry | swarmauth/budgets.py:187-190 | a key set with the rounded-up TTL lives at least to its record's expiry |
| RedisLedgerProof.ReadsAreIdeal | swarmauth/budgets.py:174-190 | what a client read and nobody touched since is what the ideal ledger holds, although keys expire |
| RedisLedgerTheorems.CommitsAreSequential | swarmauth/budgets.py:169-194 | in every interleaving the commits, in commit order, are a legal sequential run, with ordered readings per record |
| RedisLedgerTheorems.ExpiryNeverReopens | swarmauth/budgets.py:174-190 | for every chain still chargeable the server holds exactly what a ledger that forgets nothing holds |
| RedisLedgerTheorems.RecheckDecidesExactly | swarmauth/budgets.py:182-185 | a client whose watched keys nobody touched goes on to commit exactly when the ideal ledger would accept it now |
| RedisLedgerTheorems.NoOverspend | swarmauth/budgets.py:169-194 | calls, amount, minor units and rate stay within limits in every interleaving |
| RedisLedgerTheorems.StepWritesAllOrNothing | swarmauth/budgets.py:182-191 | a step writes all records of one accepted chain, removes one expired key, or leaves the store alone |
| RedisLedgerTheorems.CallsEndWithinRetries | swarmauth/budgets.py:173-194 | a call ends within `max_retries` attempts, commits once if accepted and never otherwise |
| RedisLedgerTheorems.BoundedInterference | swarmauth/budgets.py:173-194 | aborted attempts are at most (n - 1) times the commits plus n times the key expiries |
| RedisProgress.NeverStuck | swarmauth/budgets.py:173-194 | a call in progress always has an enabled step, or touches an expired key that the server can remove |
| RedisProgress.CallStepsBounded | swarmauth/budgets.py:173-194 | a call takes at most `max_retries` times (chain length + 5) steps of its own, whatever others do |
| RedisCalls.AloneDecides | swarmauth/budgets.py:169-194 | left alone, a call started in any reachable state with no key due ends accepted and committed exactly when the ideal ledger accepts it at that reading, and otherwise refused with nothing written |
| RedisCalls.ConflictIsRetried | swarmauth/budgets.py:174-193 | a conflict with attempts left starts the call over, with nothing written |
| RedisCalls.GivesUpAfterMaxRetries | swarmauth/budgets.py:174-194 | a call gives up only after `max_retries` aborted attempts |
| RedisCalls.CallStartsExactly | swarmauth/budgets.py:169-172 | a client starts a call exactly when it is not in one |
| RedisCalls.RefusedWithReason | swarmauth/budgets.py:172-185 | a call is refused only for an invalid amount, a chain that cannot be charged at the reading, or a limit |
| RedisCalls.TtlExactly | swarmauth/budgets.py:188-188 | the TTL is the remaining life in milliseconds, rounded up, and at least one |
| RedisCalls.CommitSetsDeadlines | swarmauth/budgets.py:187-190 | a commit lets every record's key live for its TTL from the server's present millisecond on |
| RedisCalls.RemovedFromItsDeadline | swarmauth/budgets.py:187-190 | a key can be removed exactly from the millisecond of its deadline on, and its removal counts as a change |
| RedisCalls.LastConflictEnds | swarmauth/budgets.py:174-194 | the conflict of the last attempt ends the call |
| RedisTranslation.StepTranslates | swarmauth/budgets.py:173-194 | apart from the re-check the protocol does not look into entries: each of its steps commutes with translating them |
| MixedLedger.RecheckByAgrees | js/src/redis.js:95-108 | the re-check of a Python or a Node client on stored text is the re-check of the ledger of numbers |
| MixedLedger.MixedStepIsNumeric | js/src/redis.js:90-116 | each step of the shared store is possible exactly when it is for the ledger of numbers, and does the same |
| MixedLedger.MixedRunIsNumeric | js/src/redis.js:90-116 | any interleaving of Python and Node clients on one store is, action by action, a run of the ledger of numbers |
| MixedLedger.MixedCommitsAreSequential | swarmauth/budgets.py:169-194 | the commits of both runtimes are one legal sequential run, stored text is worth what it charged, and no allowance is exceeded |
| MixedLedger.MixedRunConfined | swarmauth/policy.py:85-140 | what is executed through a store shared by both runtimes stays inside one grant and its ceilings |
| Registry.RootsAreHistory | swarmauth/registry.py:32-64 | a key is a root key exactly when it was registered and neither replaced nor revoked since |
| Registry.HoldersAreHistory | swarmauth/registry.py:60-84 | a key is a holder key exactly when it was registered as one and not revoked since |
| Registry.TablesStayClean | swarmauth/registry.py:32-84 | no table ever lists an issuer without keys or a key twice |
| Registry.KeyRegistry.Register | swarmauth/registry.py:32-49 | replaces the issuer's keys, or puts the key first when rotating |
| Registry.KeyRegistry.Revoke | swarmauth/registry.py:51-58 | removes one root key, and the issuer with its last key |
| Registry.KeyRegistry.RevokeIssuer | swarmauth/registry.py:60-64 | removes the root and holder keys of the issuer |
| Registry.KeyRegistry.RegisterHolder | swarmauth/registry.py:66-75 | puts the holder key first |
| Registry.KeyRegistry.RevokeHolder | swarmauth/registry.py:77-84 | removes one holder key |
| Registry.KeyRegistry.KeysFor | swarmauth/registry.py:86-97 | the root keys, or an error exactly when there are none |
| Registry.KeyRegistry.HolderKeysFor | swarmauth/registry.py:99-109 | the holder keys, or an error exactly when there are none |
| Revocation.RetentionExact | swarmauth/revocation.py:39-57 | at any later reading an id is known exactly when some revocation of it has retention left |
| Revocation.InMemoryRevocationStore.PurgeExpired | swarmauth/revocation.py:39-42 | exactly the entries whose retention passed are deleted |
| Revocation.InMemoryRevocationStore.RevokeToken | swarmauth/revocation.py:44-51 | purge, then keep the later of the two retentions, or nothing if it is over |
| Revocation.InMemoryRevocationStore.LookupToken | swarmauth/revocation.py:53-57 | purge, then say whether the id is left |
| Verification.WindowInRealTime | swarmauth/token.py:276-281 | truncation to seconds accepts exactly from `iat - leeway` up to, not including, `exp + leeway + 1` |
| Verification.NarrowedMeansContained | swarmauth/token.py:317-319 | entry-by-entry coverage is exactly containment of everything covered |
| Verification.PinsKeptMeansContained | swarmauth/token.py:300-302 | keeping the pins is exactly containment of the parameters allowed |
| Verification.AcceptedTokensAreRooted | swarmauth/token.py:388-446 | over any registry history, an accepted token traces back to a root key trusted for the root's issuer, and to a holder key of the delegate its parent names; lifetimes are at most 30 seconds, the audience matches, and no delegable token is accepted itself |
| Verification.HolderKeyIsNeverARoot | swarmauth/registry.py:66-75 | a key only ever registered as a holder never validates a token without `prf` |
| Verification.MintedChildAccepted | swarmauth/token.py:449-489 | a minted child is accepted exactly while both keys are trusted, nothing is revoked and each reading is in its window |
| Verification.AttenuationComplete | swarmauth/token.py:388-489 | once its holder is registered the child is accepted at every instant of its window, which lies inside the parent's |
| Acceptance.SingleKeyAccepts | swarmauth/token.py:215-286 | with one trusted key a token is accepted exactly when it is plain, signed by that key, valid, of at most 30 seconds, in its life, unrevoked and for the audience |
| Acceptance.RegistryAccepts | swarmauth/token.py:388-446 | with a registry, exactly when the history trusts the root key, and for a delegated token also the holder key, and the child's authority is contained in the parent's |
| Acceptance.AttenuatedExactly | swarmauth/token.py:290-321 | the attenuation checks pass exactly when the child's authority, lifetime and identity are contained in what the parent allows |
| Acceptance.ClaimsExactly | swarmauth/token.py:96-139 | which claims are valid: named issuer, audience, id and capabilities, an end after the beginning, safe integers, valid constraints |
| Acceptance.LimitsExactly | swarmauth/token.py:44-52 | counts from 1 to 2^53 - 1 and amounts from zero are the valid limits |
| Acceptance.SharedBudgetExactly | swarmauth/token.py:80-93 | a shared budget is valid exactly with its id, a safe amount and a currency pinned beside valid limits |
| Acceptance.MintedChildCarriesRequest | swarmauth/token.py:449-489 | a minted child carries the requested issuer, capabilities, constraints, id and ttl, its parent's audience, and the parent itself |
| Acceptance.AttenuateExactly | swarmauth/token.py:449-489 | a child is minted exactly when parent and request satisfy the listed conditions on ttl, life, id, delegate and containment |
| Authorization.VerifyAndCheck | swarmauth/middleware.py:282-340 | with a process-local tracker or none: the outcome and the tracker's contents are those of the checks and of the reservation, and refused calls charge nothing |
| Authorization.LetThroughExactly | swarmauth/middleware.py:306-340 | a verified call reaches its reservation exactly when coverage, pins, amount and tracker allow it, and it then charges exactly the presented token or the whole chain with the given amount |
| Authorization.NoUnpaidLimit | swarmauth/middleware.py:318-340 | every limit in the chain is charged, shared budgets only through trackers that know them, no budgeted chain is charged a defaulted zero, and an explicit amount is charged as given or refused |
| Authorization.PlainTrackersSeeNoBudget | swarmauth/middleware.py:319-320 | a tracker without budget support never sees a chain that names one |
| Authorization.ExpiredIsRefused | swarmauth/middleware.py:239-241 | whatever they hold, both Python trackers, the Go one, the ideal ledger and the Redis re-check refuse a chain with a token past its retention |
| Authorization.AcceptanceSpan | swarmauth/token.py:276-283 | a verified token is charged only within a span of 35 seconds |
| Authorization.RevokedNeverCharged | swarmauth/middleware.py:238-241 | once the token or its parent was revoked with its own expiry, every tracker refuses the reservation of the call, with separate clock readings for window, lookup and reservation |
| Authorization.AuthorizeFollowsHistory | swarmauth/token.py:285-286 | revocation decides by the store's history and changes nothing else |
| Authorization.UntrackedRevocation | swarmauth/revocation.py:53-57 | without a tracker, a call passes exactly when each revoked token of its chain, presented or parent, is looked up at or after its `exp + 3` |
| Authorization.UntrackedRevocationGap | swarmauth/revocation.py:53-57 | a concrete call with a revoked token that passes, its readings in order |
| Authorization.UntrackedParentGap | swarmauth/token.py:419-441 | a concrete call with a child of a revoked parent that passes, with the four readings in the order `verify` takes them |
| Policy.IssuerPolicy.Check | swarmauth/policy.py:85-111 | passes exactly when one matching grant admits the request, and otherwise gives each candidate's reason |
| Policy.GrantMeansContainment | swarmauth/policy.py:114-140 | a grant admits a request exactly when all authority of the token is inside the grant's, with lifetime and delegate allowed |
| Policy.IssueSucceedsExactly | swarmauth/middleware.py:136-164 | issuing succeeds exactly when the policy allows it, the ttl is positive and the request's own data is well formed; the grant settles the rest |
| Policy.IssuedCarriesRequest | swarmauth/middleware.py:136-164 | an issued token carries every field of the request, under the issuer's key |
| Policy.IssuedTokenAccepted | swarmauth/token.py:326-356 | an issued token is accepted exactly by verifiers that trust its key, in its life, unrevoked, for its audience, and unless it is for delegation |
| Policy.AttenuationStaysInside | swarmauth/token.py:290-321 | an attenuated token stays inside every grant its parent is inside |
| Confinement.IssuedInsideGrant | swarmauth/middleware.py:136-164 | a token of a policy-bound issuer lies inside one of its grants |
| Confinement.AuthorizedCallConfined | swarmauth/middleware.py:306-340 | an authorized call has its capability covered, its parameters equal to the grant's pins, its lifetime and its delegate allowed |
| Confinement.LedgerCoversRun | swarmauth/middleware.py:329-340 | ledger totals on the root's record bound the calls and amounts made under the root |
| Confinement.EndToEndConfinement | swarmauth/policy.py:85-140 | every call under a root of a policy-bound issuer is inside one grant, and calls, amount and rate under that root stay within its ceilings |
| TrackerRuns.RedisRunConfined | swarmauth/budgets.py:169-194 | the same in every interleaving of verifiers sharing a Redis ledger |
| TrackerRuns.BudgetRunConfined | swarmauth/budgets.py:141-149 | the same for whatever `BudgetUsageTracker` accepts of the calls made to it |
| TrackerRuns.UsageRunConfined | swarmauth/middleware.py:229-262 | the same for whatever `UsageTracker` accepts of the calls made to it |
| TrackerRuns.GuardRunDrivesTracker | swarmauth/middleware.py:282-340 | a run of `verify_and_check` charges its tracker by exactly the reservations of the calls that pass the checks |
| TrackerRuns.GuardRunConfined | swarmauth/middleware.py:282-340 | over any run of `verify_and_check` with its process-local tracker, what is let through under a root lies inside one grant and its ceilings |
| PooledBudget.PooledSpendHeld | swarmauth/policy.py:136-137 | minor units and calls under all roots of all grants that pin a budget together stay within the budget's rule |
| PooledBudget.RedisPoolHeld | swarmauth/budgets.py:169-194 | the same in every interleaving over a shared Redis ledger |
| PooledBudget.BudgetPoolHeld | swarmauth/budgets.py:141-149 | the same for whatever the in-memory budget ledger accepts |
| Confinement.UntrackedMeansUnlimited | swarmauth/middleware.py:321-324 | without a tracker only roots of grants without ceilings pass |
| Approvals.RunKeeps | swarmauth/approvals.py:119-136 | the store, its clients and the history stay consistent in every interleaving |
| ApprovalTheorems.SuccessWasApproved | swarmauth/approvals.py:179-196 | a success carried exactly the approved resource, revision and digest, was last checked before the expiry, and nothing happened to the resource in between |
| ApprovalTheorems.EndedApprovalIsDead | swarmauth/approvals.py:82-91 | once superseded, invalidated or used, an approval yields no success |
| ApprovalTheorems.SingleUse | swarmauth/approvals.py:119-136 | an approval id yields at most one success |
| ApprovalTheorems.SuccessIsLogged | swarmauth/approvals.py:194-196 | a success is reported only by a step that consumes the approval |
| ApprovalTheorems.ConsumeEndsWithinAttempts | swarmauth/approvals.py:119-136 | a consume makes at most 64 attempts |
| ApprovalTheorems.UncontendedConsumeSucceeds | swarmauth/approvals.py:123-133 | left alone, a client holding the active unexpired approval gets it, and it is active no more |
| ApprovalTheorems.DigestIdentifiesPayload | swarmauth/approvals.py:19-36 | digests are equal exactly when the payloads are equal as JSON |
| ApprovalTheorems.DigestExists | swarmauth/approvals.py:25-34 | exactly the payloads without floats and unsafe integers, at any depth, have a digest |
| ApprovalTheorems.DigestIsPayload | swarmauth/approvals.py:35-36 | the digested text is JSON that reads back as an equal value with its keys in order |
| ApprovalCalls.AuthorizeAlone | swarmauth/approvals.py:160-196 | left alone, an authorize succeeds exactly when the id has a live record, active on its resource and pinning the request, and the token is accepted; in memory and through Redis |
| ApprovalCalls.ConsumeIsRetried | swarmauth/approvals.py:123-136 | a conflicting consume starts over, and only the sixty-fourth attempt gives up |
| ApprovalTheorems.InMemoryApprovalStore.PutApproval | swarmauth/approvals.py:66-72 | drops what expired, then makes the approval active |
| ApprovalTheorems.InMemoryApprovalStore.Consume | swarmauth/approvals.py:86-91 | succeeds exactly when unexpired and active, and then ends it |
| ApprovalTheorems.PutIsTwoSteps | swarmauth/approvals.py:66-72 | the in-memory put is a step of the machine after a forgetting step |
| ApprovalTheorems.ConsumeIsOneStep | swarmauth/approvals.py:86-91 | the in-memory consume is one step of the machine |
| CanonicalJson.WriteString | ts/src/canonicalJson.ts:25-40 | the loop writes the escaped text of the whole string |
| CanonicalJson.StringReadable | ts/src/canonicalJson.ts:25-40 | a quoted string ends at its closing quote and its text determines it |
| CanonicalJson.IntReadable | ts/src/canonicalJson.ts:42-51 | integer text before a delimiter determines the integer |
| CanonicalJson.CompareKeys | ts/src/canonicalJson.ts:61-69 | the comparator is negative, zero or positive as the key is before, equal or after in code-point order |
| CanonicalJson.KeyOrderStrictTotal | ts/src/canonicalJson.ts:61-69 | code-point order is irreflexive and transitive, and of two keys exactly one is before, equal or after, surrogates included |
| CanonicalJson.KeyOrderExactly | ts/src/canonicalJson.ts:61-69 | the first differing code point decides, the smaller one first, and a proper prefix comes first |
| CanonicalJson.CodePointsExactly | ts/src/canonicalJson.ts:62-63 | the code points of a key are those its UTF-16 units encode, with every surrogate pair joined |
| CanonicalJson.SortedUnique | ts/src/canonicalJson.ts:61-69 | a set of keys has one sorted listing, whatever the insertion order |
| CanonicalProof.ValueReadable | ts/src/canonicalJson.ts:53-71 | nested text before a delimiter can be read in one way only |
| CanonicalProof.CanonicalInjective | ts/src/canonicalJson.ts:25-71 | two values have the same canonical text if and only if they are equal as JSON |
| JsonReader.EncodeUnitExactly | ts/src/canonicalJson.ts:25-40 | which units are escaped and how: seven short escapes, lower-case hexadecimal for the rest, printable ASCII as itself |
| JsonReader.StringReadsBack | ts/src/canonicalJson.ts:25-40 | an independent JSON string reader inverts the encoder |
| JsonRoundTrip.CanonicalRoundTrip | ts/src/canonicalJson.ts:25-71 | an independent JSON reader reads canonical text back as an equal value with the keys of every object in code-point order |
| JsonRoundTrip.LedgerKeyReads | swarmauth/budgets.py:94-118 | a ledger key text is the JSON array of its kind and its id |
| CanonicalProof.LedgerKeysDistinct | swarmauth/budgets.py:94-118 | ledger key texts are equal exactly for the same kind and the same id |
| Base64Url.DecodeInvertsEncode | swarmauth/crypto.py:25-36 | decoding gives some bytes exactly when the text is their encoding |
| Base64Url.AcceptedTexts | swarmauth/crypto.py:29-36 | the accepted texts are those over the alphabet, of a possible length, with no leftover bits set |
| Base64Url.LettersExactly | swarmauth/crypto.py:25-26 | the alphabet of section 5 of RFC 4648 |
| Base64Url.ExamplesOfTheStandard | swarmauth/crypto.py:25-26 | the examples of section 10 of RFC 4648, without padding |
| Base64Url.SegmentsDetermineToken | swarmauth/token.py:359-374 | a token string is accepted with some segments exactly when it is the text of those segments |

## Left out

- Ed25519, SHA-256, key import and export: foreign calls, abstract here.
- `guard`, framework adapters, `use_token`, HTTP and MCP middleware, decision events: plumbing around the modelled calls.
- The CLI, sinks, benchmarks, examples and release scripts: input and output only.
- JSON parsing and schema validation: the model starts from parsed tokens and checks the schema conditions it relies on; the check that pinned parameters hold finite values and safe integers, the 32-byte form of `kid`, and a `prf` string that does not parse are not modelled.
- Argument errors of `verify` (both or neither of key and registry): the model takes exactly one.
- Textual number patches applied after encoding, and the formatting of non-integer numbers: no byte equality across SDKs is claimed for them.
- The legacy Redis tracker and the Redis revocation store: another key layout with weaker guarantees.
- Async wrappers and cancellation: thin sequencing over the modelled steps.
- The wording of refusals; codes follow the order of the code but no theorem is about which one wins.
- `TokenIssuer.attenuate` under a policy and `ApprovalService.issue`: compositions of the modelled policy check, issuing and attenuation.
- The Node and Go verifiers, issuers and policies: same rules as the modelled Python ones; only their ledgers and encodings are modelled separately.
- UsageTracker.UsageTracker.CheckAndRecordChain: adds decimals exactly; that the 1000-digit context changes nothing over any feasible run is ContextLedger.UsageContextExact.
- BudgetTracker.BudgetUsageTracker.CheckAndRecordChain: adds decimals exactly; the context is ContextLedger.BudgetContextExact.
- NodeRuns.NodeAndPythonLedgersAgree: counts stay below 2^53 because the run is shorter than that.
- MixedLedger.MixedRunIsNumeric: runs of fewer than 2^53 actions; Node's single MGET is a run of GETs with nothing in between, and both runtimes hash the same key text.
- RedisLedgerTheorems.CallsEndWithinRetries: says nothing about network failures other than an aborted transaction.
