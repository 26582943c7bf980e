# Admission and routing core of the gateway, in Dafny

A Dafny 4.11 model of the decision core of the metapi-go gateway, with proofs of what it promises.
`dafny verify dfyconfig.toml` checks all of it.

Every component has the same shape. What the source updates in place is a class, an array or a
loop here too; its methods are proved against small value-level functions, and the theorems about
those functions speak about every input, every run or every interleaving.

| file | what it models |
|---|---|
| `KeyAdmission.dfy` | the sliding-window RPM/TPM limiter of a managed key, memory-only path |
| `SharedAdmission.dfy` | the same gate over shared counters: instances and requests interleave one atomic step at a time |
| `SharedVerdicts.dfy` | every verdict of that gate, step by step and over a whole call, in sums over the requests |
| `SharedLimits.dfy` | exactly when that gate keeps the local request limit and returns what denied requests took |
| `QuotaLedger.dfy` | usage rows and in-flight holds of the quota windows |
| `QuotaVerdicts.dfy` | the quota verdicts in the fields of rows and holds, and the token limit over runs |
| `AdmissionChain.dfy` | the live chain of one turn: gates, reservation, IP rules, rate, request budget |
| `TurnVerdicts.dfy` | that chain as the first closed gate of the stored fields |
| `TurnInterleaving.dfy`, `TurnRefinement.dfy` | many turns of one key at once, interleaved step by step over stale rows, and how the steps make up a turn |
| `AdmissionExplainer.dfy`, `ExplainerVerdicts.dfy` | the read-only explanation of the same decision, its agreement with the live chain and with the stored fields |
| `Glob.dfy` | the backtracking glob matcher and model patterns |
| `ModelMapping.dfy`, `MappingText.dfy` | the hand-written parser of route-level model mappings and the texts it reads back |
| `Association.dfy`, `AssociationFacts.dfy` | the choice among conditional associations under missing context, and when more facts were needed |
| `Redirects.dfy` | the redirect registry and the channels it makes eligible |
| `TokenListing.dfy`, `ListingVerdicts.dfy`, `TokenHydration.dfy`, `TokenDelete.dfy`, `TokenIdentity.dfy` | listing, unmasking and deleting upstream tokens against an arbitrary upstream |
| `GobIds.dfy`, `GobScan.dfy` | the scanner for user ids in gob payloads, and for which field names it is complete |
| `Billing.dfy`, `BillLines.dfy`, `PriceRanking.dfy`, `PriceOrder.dfy` | cost in micro-dollars, price rows, recommendations and how far the documented order holds |
| `TraceAffinity.dfy`, `FixedWindow.dfy`, `RouteCache.dfy`, `StableFirst.dfy`, `SiteConcurrency.dfy` | the bounded state holders |
| `Seqs.dfy`, `Text.dfy`, `Int64.dfy` | sums and filters, trimming and string order, wrapping integers |

## Where the code and its documentation differ

The model follows the code. These differences are stated as lemmas:

- `auth/key_admission.go:303-306` says that the per-key mutex keeps check and reservation atomic.
  Requests without a token estimate skip that mutex. Under a token counter a local request limit can
  then be exceeded, by exactly one, if and only if such requests meet ones whose tokens fit the
  token limit (`LocalLimitsHold`, `LocalRequestLimitExactIff`). The two callers in the gateway always
  pass a positive estimate when a token limit exists, and then the limit holds.
- `auth/key_admission.go:394` denies without returning the request already counted in the shared
  window, which happens if and only if the request counter is shared and the token limit local
  (`CountersAccountForEveryRequest`, `NoDeniedStaysCountedIff`).
- `auth/key_admission.go:485-508`: both reported waits are one millisecond short, because an entry
  exactly 60 000 ms old is kept (`RetryAfterExactIff`, `TokenRetryAfterExactIff`); one millisecond more is
  always enough (`RetryAfterIsEnough`, `TokenRetryAfterIsEnough`).
- `auth/downstream.go:431-437`: a turn that the final UPDATE denies has already been recorded by the
  rate limiter, and its entry stays (`DenialIsReversible`, `WindowRemembersEveryRecordedTurn`,
  `RacingTurnLeavesItsEntry`).
- `auth/downstream_context.go:125-138` announces the live chain's order. It lists the owner first,
  the live chain tests policy and enabled flag before the owner (`FirstBlockerIsReasonIff`). A
  stored rate limit of zero or below blocks in the explanation and is unlimited live
  (`ExplainerExactIff`).
- `routing/matcher.go:125-128` compares literally before it looks for a star, so a value that itself
  contains a star can be refused by a pattern that matches it (`GlobExactIffNoStarInValue`).
- `routing/matcher.go:308` slices both ends off without looking at their number
  (`PanicsOnlyOnLoneBrace`).
- `routing/matcher.go:376-382` leaves unquoting to a decoder that is right about runs of backslashes, but
  the scans at `routing/matcher.go:334` and `365` only look one character back: a string that ends in an
  escaped backslash does not end for them (`LiteralClosesIff`, `BackslashMergesMembers`, `ObjectIsRead`).
- `routing/association_conditions.go:37-45` justifies reporting missing context by rules that may
  still alter the choice. A group stays unevaluated even when a known child decides it, so some
  reports are not needed; which ones is exact when no fact is asked for twice (`OverCautiousIff`).
- `routing/price_compare.go:176-177` names site and account as tie-breakers. Site is one for every
  list, account and model are within one spelling of the site (`SortedThroughSiteAndAccount`). Across
  spellings that differ only in case the comparator ties rows, which makes it no strict weak order
  (`NotAStrictWeakOrder`), and the documented order is guaranteed if and only if no such rows differ
  in account or model (`DocumentedOrderGuaranteedIff`, `DescendingAccountsStay`).
- `platform/newapi_userid.go:236-238` skips a whole marker, which loses an id if and only if the
  marker can overlap itself; no field name in use does (`ReadsAllIffUnbordered`, `MarkerUnbordered`).
- `routing/pricing_cost.go:428-453` picks any positive ratio from a map, so equal calls can bill
  differently (`MultiplierDeterminedIff`); `routing/pricing_cost.go:410` wraps for extreme cache
  counts (`BillableExactIff`).
- `platform/newapi_tokens.go:164-167` and `239`: the page-limit and the fall-through errors are
  unreachable (`EveryListingIsHonest`).

## Model

| member | source | states |
|---|---|---|
| KeyAdmission.PruneTimes | auth/key_admission.go:445-459 | the kept request log is the old one without its leading run of entries older than the window start; nothing behind the first young entry is touched |
| KeyAdmission.PruneTokenEvents | auth/key_admission.go:461-475 | the same for the token log |
| KeyAdmission.SumTokens | auth/key_admission.go:477-483 | the int64 accumulation is the exact token sum reduced once modulo 2^64 |
| KeyAdmission.KeyWindow.SnapshotLocked | auth/key_admission.go:128-137 | prunes both logs in place and reports their sizes and both waits from the same pruned state |
| KeyAdmission.KeyWindow.ReserveLocked | auth/key_admission.go:141-146 | appends one request, and a token event only for a positive estimate under a token limit |
| KeyAdmission.KeyWindow.DecideAndReserve | auth/key_admission.go:265-294 | one shard-lock hold: new window and decision are those of the specified admission step |
| KeyAdmission.KeyAdmissionLimiter.Allow | auth/key_admission.go:231-294 | missing or non-positive limits admit and record nothing; otherwise the key's own window takes one admission step and no other key's window changes |
| KeyAdmission.KeyAdmissionLimiter.Snapshot | auth/key_admission.go:428-443 | reports the pruned usage of the key and changes no other key's window |
| KeyAdmission.ExecKeepsInv | auth/key_admission.go:262-294 | over every run of admissions and snapshots in lock order: logs ordered, pruned log equal to the recent history, all spans within the limits |
| KeyAdmission.PrunedLogIsRecentHistory | auth/key_admission.go:126-146 | the pruned log is always the whole admission history cut to the last 60 000 ms |
| KeyAdmission.EverySpanWithinLimits | auth/key_admission.go:262-294 | every closed span of 60 000 ms, wherever it starts, holds at most maxRPM admissions and maxTPM reserved tokens |
| KeyAdmission.AdmitsExactlyWhenThereIsRoom | auth/key_admission.go:262-294 | after any run a request is admitted exactly when the last window of the full history has room for it; RPM is reported before TPM and the reported usage is the history's |
| KeyAdmission.TokenCheckExactIff | auth/key_admission.go:278 | the int64 token comparison agrees with exact arithmetic if and only if used + estimate does not exceed the int64 maximum |
| KeyAdmission.RetryAfterExactIff | auth/key_admission.go:485-496 | retrying after exactly the reported wait finds the oldest request gone if and only if the one-second floor was reported; otherwise the wait is one millisecond short and the retry is denied again |
| KeyAdmission.TokenRetryAfterExactIff | auth/key_admission.go:498-508 | the same of the wait reported for tokens: the oldest token event is gone if and only if the window holds one and the floor was reported, otherwise the retry is denied again |
| KeyAdmission.RetryAfterIsEnough | auth/key_admission.go:485-496 | after a denial for requests the reported wait is at least a second, beyond that exactly the time until the oldest request is 60 000 ms old; one millisecond later that request is always gone, and a window that was just full takes requests again |
| KeyAdmission.TokenRetryAfterIsEnough | auth/key_admission.go:498-508 | the same of the oldest token event after a denial for tokens; without any event the wait is one second |
| SharedAdmission.RollbackIsExact | internal/sharedcount/counter.go:573-578 | no rollback of a counted reservation ever meets the floor at zero, so every rollback returns exactly what was taken |
| SharedAdmission.AdvanceKeepsInv | auth/key_admission.go:296-418 | every atomic step of every phase keeps the counter equations and all limits |
| SharedAdmission.RunKeepsInv | auth/key_admission.go:296-418 | the invariant over every interleaving of any number of instances |
| SharedAdmission.CountersAccountForEveryRequest | auth/key_admission.go:296-418 | shared RPM count = admitted + in flight + denied by the local TPM check after being counted; shared token count = admitted tokens + tokens in flight |
| SharedAdmission.SharedLimitsHold | auth/key_admission.go:315-334 | requests admitted under a shared RPM counter, together with those left counted, never exceed the limit; admitted tokens never exceed a shared token limit |
| SharedAdmission.LocalLimitsHold | auth/key_admission.go:336-351 | without a shared counter each instance keeps the token limit in every run and passes the request limit by at most one; not at all when all its requests take the same path |
| SharedAdmission.QuietVerdictIsExact | auth/key_admission.go:315-334 | with nothing else in flight the shared RPM verdict passes if and only if admitted plus left-counted requests are below the limit |
| SharedVerdicts.MemoryOnlyVerdict | auth/key_admission.go:262-294 | after every interleaving, a request that uses no shared counter is denied for requests if and only if its instance's admitted requests reach maxRPM, else for tokens if and only if its estimate does not fit beside the instance's admitted tokens, else admitted |
| SharedVerdicts.MutexIsTakenWhenFree | auth/key_admission.go:303-307 | an arriving request that uses a shared counter goes on exactly when no request of its instance is inside a call |
| SharedVerdicts.RequestVerdict | auth/key_admission.go:315-350 | after every interleaving it passes the request check if and only if admitted, in-flight and left-counted requests are below a shared limit, or the instance's admitted requests below a local one |
| SharedVerdicts.TokenVerdict | auth/key_admission.go:354-381 | after every interleaving it passes the shared token check if and only if admitted tokens, tokens in flight and its own estimate stay within maxTPM; without that counter it always passes |
| SharedVerdicts.FinalVerdict | auth/key_admission.go:383-418 | the last hold denies if and only if a local token limit has no room for the estimate, and tells whether the request stays counted |
| SharedVerdicts.OverLimitIsRolledBack | auth/key_admission.go:319-377 | a request beyond a limit takes back exactly what it was counted for, tokens before requests, and is then denied |
| SharedVerdicts.QuietCallIsExact | auth/key_admission.go:231-418 | from any run in which nobody is inside a call, five steps of one request end its call: admitted if and only if both limits have room beside the finished requests, else denied for the first that has none; no other request moves |
| SharedLimits.RunOnlyMemoryAdmits | auth/key_admission.go:262-294 | when every request with tokens asks for more than the token limit, only requests decided under the shard lock are admitted, and the local request limit holds in every run |
| SharedLimits.OvershootReached | auth/key_admission.go:303-306 | for every configuration with a local request limit and a token counter, and every pair of a non-positive estimate and one within the token limit, a run using only these two in which an instance admits maxRPM + 1 |
| SharedLimits.LocalRequestLimitExactIff | auth/key_admission.go:265-351 | for estimates drawn from any set: every run keeps the local request limit if and only if no token counter is in use or the set does not hold both a non-positive estimate and one within the token limit |
| SharedLimits.DeniedRequestsCanFillTheWindow | auth/key_admission.go:394-402 | for every configuration with a shared request counter and a local token limit, a run that fills the shared window with denied requests while nothing is admitted or in flight |
| SharedLimits.NoDeniedStaysCountedIff | auth/key_admission.go:394-402 | no denied request stays counted in any run if and only if the request counter is not shared while the token limit is local |
| QuotaLedger.QuotaTables.ReserveManagedKeyQuota | auth/downstream_quota.go:187-271 | verdict and new tables are those of explaining the ledger after the sweep of stale holds: on a denial the transaction leaves both tables alone, on success exactly one hold is added with the fresh id and the current window |
| QuotaLedger.QuotaTables.ReleaseManagedKeyQuotaReservation | auth/downstream_quota.go:286-297 | removes the holds with this id and nothing else; an empty id does nothing |
| QuotaLedger.QuotaTables.SettleManagedKeyQuotaUsage | auth/downstream_quota.go:341-354 | one step: the key's own hold goes and exactly one usage row comes, with or without such a hold |
| QuotaLedger.QuotaTables.RecordManagedKeyQuotaUsage | auth/downstream_quota.go:309-339 | negative tokens or cost become missing, non-positive keys record nothing, and billing never depends on the hold |
| QuotaLedger.OverlapIsSamePeriod | auth/downstream_quota.go:149-168 | when windows partition time, the overlap rule counts a hold in a window exactly when it is a hold of that window |
| QuotaLedger.InWindowSettlementKeepsTheSum | auth/downstream_quota.go:341-354 | settling inside the hold's window leaves that window's request sum unchanged |
| QuotaLedger.SettlementRaisesByUnheld | auth/downstream_quota.go:341-354 | no settlement raises any window's sum by more than its own row without a live hold there |
| QuotaLedger.ReserveAddsOneHold | auth/downstream_quota.go:187-271 | a denied reservation leaves the tables alone, a granted one leaves the swept table and one more hold of the current window |
| QuotaLedger.NewHoldStaysWithinLimit | auth/downstream_quota.go:187-271 | the hold a clear verdict allows keeps every window of the key within its request limit or no fuller |
| QuotaLedger.AdmissionStaysWithinLimit | auth/downstream_quota.go:187-271 | an admission leaves every window no fuller than before or within the request limit |
| QuotaLedger.WindowNeverExceedsLimit | auth/downstream_quota.go:149-271 | after every run of admissions, settlements, releases, crashes and sweeps, over all keys: rows plus holds of a window are at most the limit plus the rows settled there without a live hold of that window |
| QuotaLedger.StaleSettlementExceedsLimit | auth/downstream_quota.go:18-24 | the extra term is needed: a run under limit 1 that ends with 2 in the window, through a swept hold that settles late |
| QuotaLedger.SweepKeepsClear | auth/downstream_quota.go:218-224 | sweeping stale holds never turns a clear window into a blocked one |
| QuotaLedger.ReleaseTwice | auth/downstream_quota.go:280-297 | release is idempotent |
| QuotaLedger.ReleaseUndoesReserve | auth/downstream_quota.go:187-297 | releasing an admission's hold leaves exactly the swept ledger |
| QuotaLedger.ReleaseAfterSettlementIsNoOpIff | auth/downstream_quota.go:280-297 | a release after settling the same id changes nothing if and only if no other key holds that id |
| QuotaVerdicts.ReservationVerdict | auth/downstream_quota.go:207-248 | each verdict of an admission is given if and only if the stored fields call for it: the window is invalid, its history missing, a limited quantity unknown in a row of the window, settled plus live held requests or tokens or settled cost at a limit, or the id in use; clear if and only if none of these |
| QuotaVerdicts.ExplanationVerdict | auth/downstream_quota.go:87-134 | the explanation gives the same verdicts of all holds, stale ones included, with exactly the sums and the counts of incomplete rows behind them |
| QuotaVerdicts.GrantedReservation | auth/downstream_quota.go:218-268 | a granted admission keeps all rows and all holds but the key's own older than 30 minutes, and adds one hold: one request, and under a token limit the estimate but at least one token |
| QuotaVerdicts.SettlementAndRelease | auth/downstream_quota.go:280-354 | a settlement adds one row with the known, non-negative quantities and takes only the key's own hold with that id; a release takes every hold with that id |
| QuotaVerdicts.TokensStayWithinLimitAndOverruns | auth/downstream_quota.go:181-271 | after every run: the settled and held tokens of a window stay below the token limit plus the largest estimate, but for the tokens that settlements spent beyond what their own holds had reserved there |
| AdmissionChain.Gateway.ConsumeManagedKeyRequest | auth/downstream.go:344-374 | unless the UPDATE fails, counts exactly one request of the key with this id if and only if the table's row has one left, and touches no other row |
| AdmissionChain.Gateway.AuthorizeDownstreamToken | auth/downstream.go:124-222 | first failing gate in the chain's order with its status; the ledger changes only through the reservation |
| AdmissionChain.Gateway.AdmitReserved | auth/downstream.go:411-445 | IP, rate and budget gates of a turn with the row it loaded: the rate window is that of the rate gate, the table as it is now decides whether the request counts, and every denial, the UPDATE's included, carries the reservation id |
| AdmissionChain.Gateway.TakeTurn | auth/downstream.go:391-445 | row, ledger, rate window and result of a known token are those of one specified turn, whether or not the UPDATE at its end works; all other rows and windows stay |
| AdmissionChain.Gateway.ReauthorizeManagedKeyForTurn | auth/downstream.go:391-445 | blank and unknown tokens touch nothing; otherwise key row, ledger, rate window and result are those of one specified turn and all other keys keep theirs |
| AdmissionChain.DenialIsReversible | auth/downstream.go:404-445 | a denied turn counts no request; without a reservation id it left the ledger alone, with one its release leaves only the sweep; and its rate window is at most pruned if and only if it was not the UPDATE that denied a rated key's turn |
| AdmissionChain.AdmittedTurnHoldsItsSlot | auth/downstream.go:378-391 | an admitted turn of a key with a quota holds one request in the current window under the returned id, and releasing that id takes exactly this hold away |
| TurnVerdicts.TurnVerdict | auth/downstream.go:123-445 | a turn is admitted if and only if every gate is open in the stored fields, and otherwise answered by the first closed one, with its status and reason, and with the reservation id to release exactly when the quota was passed |
| TurnVerdicts.AddressVerdict | auth/downstream.go:548-575 | a known address is blocked if and only if it is on a non-empty blocklist, and otherwise not allowed if and only if there is an allowlist without it; a blank one is refused only by an imported key with an allowlist |
| TurnVerdicts.QuotaVerdict | auth/downstream_quota.go:187-248 | the quota lets a turn pass if and only if the rows and live holds of its window leave room, and otherwise names what is in the way with its status |
| TurnVerdicts.AdmittedTurnIsRecorded | auth/downstream.go:378-445 | an admitted turn counted one request, put its request and at least one token under a token limit at the end of a limited key's pruned window, and left its hold, of at least one token under a token quota, in the ledger |
| TurnInterleaving.EveryAdmittedTurnCountsOnce | auth/downstream.go:329-374 | over every interleaving of turns, however stale the rows they loaded: used_requests is the start plus exactly the admitted turns, never passes the maximum by them, and nothing but the counters of the row moves |
| TurnInterleaving.WindowRemembersEveryRecordedTurn | auth/downstream.go:424-437 | over every interleaving the admission log of a rated key holds exactly one entry for each turn that is admitted, waits for the UPDATE or was denied by it, and none for any other |
| TurnInterleaving.RateLimitsHoldForRecordedTurns | auth/downstream.go:424-437 | all those entries together, the left-behind ones included, stay within both rate limits in every 60 000 ms span |
| TurnInterleaving.DeniedTurnsLeaveNoHold | auth/downstream.go:404-409 | over every interleaving, once the denied turns have given back, every hold in the ledger belongs to a turn that is admitted or on its way |
| TurnInterleaving.RacingTurnLeavesItsEntry | auth/downstream.go:431-437 | two turns that pass the static gates on one unspent request: one is admitted, the other is denied by the UPDATE and keeps its entry in the rate window |
| TurnInterleaving.RunKeepsCounts | auth/downstream.go:391-445 | every step of every turn keeps the budget equation, the log and its link to the limiter's own history |
| TurnRefinement.UninterruptedTurnIsTurn | auth/downstream.go:391-445 | from any state of any number of turns, the atomic steps of one turn that nobody interrupts do to row, ledger and rate window exactly what the whole chain does and end in its answer |
| TurnRefinement.SettlementIsARow | auth/downstream_quota.go:309-354 | settling an admitted turn adds its one usage row, takes its hold and changes nothing else of the system |
| TurnRefinement.EverySettlementIsARow | auth/downstream_quota.go:309-354 | over every interleaving the ledger has the rows it started with and exactly one for each settlement of an admitted turn |
| AdmissionExplainer.Add | auth/downstream_context.go:132-136 | adding a blocker keeps the earlier ones and the first; the list stays empty exactly when nothing was added |
| AdmissionExplainer.ExplainState | auth/downstream_context.go:138-173 | lists every blocked dimension of owner, policy, state, expiry and budgets, in this order |
| AdmissionExplainer.ExplainQuota | auth/downstream_context.go:175-186 | the quota blocker, if any, with the numbers behind it |
| AdmissionExplainer.ExplainIP | auth/downstream_context.go:188-197 | checks the address unless it is blank |
| AdmissionExplainer.ExplainRate | auth/downstream_context.go:199-219 | both rate blockers against the pruned local usage; no other key's window changes |
| AdmissionExplainer.ExplainAdmission | auth/downstream_context.go:128-233 | the whole explanation as a function of key row, ledger and window; its only write prunes this key's rate window |
| AdmissionExplainer.StaticGatesAgree | auth/downstream.go:123-176 | the live chain has a denial before the quota exactly when such a blocker is listed, and its reason is listed |
| AdmissionExplainer.QuotaGatesAgree | auth/downstream_quota.go:87-134 | without stale holds the live reservation's verdict is the explained one |
| AdmissionExplainer.RateGatesAgree | auth/downstream_context.go:199-219 | the rate blockers are empty exactly when the limiter admits one token and both stored limits are absent or positive |
| AdmissionExplainer.ExplainerExactIff | auth/downstream_context.go:128-233 | for a known address, with no other turn taking the request meanwhile: the explanation allows if and only if the live chain admits a one-token turn and no stored rate limit is zero or negative; the live reason is always among the blockers |
| AdmissionExplainer.BlankAddressExactIff | auth/downstream.go:552-558 | for a blank address: the same, except that an imported key with an allowlist is rejected live and not explained |
| AdmissionExplainer.AllowMeansAdmit | auth/downstream_context.go:125-128 | a key the explanation allows is admitted even when stale holds are still in the table |
| AdmissionExplainer.FirstBlockerIsReasonIff | auth/downstream_context.go:125-150 | the first blocker is the live reason if and only if the owner's access is fine or neither policy nor enabled flag blocks |
| AdmissionExplainer.ExplainingIsInvisible | auth/downstream_context.go:125-127 | no later rate decision depends on whether the key was explained before |
| ExplainerVerdicts.BlockersAreTheClosedDimensions | auth/downstream_context.go:138-219 | the listed blockers are exactly the dimensions closed in the stored fields, each once and in the order owner, policy, state, expiry, cost, requests, quota, address, RPM, TPM; allowed means none |
| ExplainerVerdicts.NotesAreTheGaps | auth/downstream_context.go:128-233 | the notes start with read-only and name missing quota history, unchecked address rules and the process-local rate window exactly when each applies; each dimension's numbers are present exactly when the key has that limit |
| Glob.GlobMatch | routing/matcher.go:117-145 | the loop over scan position and remembered star computes the greedy verdict and terminates by star position, retry position, scan position |
| Glob.GreedySound | routing/matcher.go:117-145 | a positive verdict from any loop state is a match of the remaining pattern from the scan position or from the remembered star |
| Glob.GreedyComplete | routing/matcher.go:117-145 | for values without a literal star every reachable match is found |
| Glob.GlobCorrect | routing/matcher.go:117-145 | true implies a recursive glob match for every pattern and value; a match implies true for every value without a star |
| Glob.WronglyRejectedPattern | routing/matcher.go:125-128 | for every value with a star, a pattern that matches it and is rejected |
| Glob.GlobExactIffNoStarInValue | routing/matcher.go:125-128 | the matcher is right about a value for every pattern if and only if the value has no literal star |
| Glob.ModelPatternMeaning | routing/matcher.go:85-112 | model patterns mean equality, a regex after the re: prefix, or a glob, after trimming: sound always, exact for regexes and for names without a star |
| ModelMapping.SplitJSONPairs | routing/matcher.go:327-358 | the scan by indexes yields the recursive split at top-level commas, blank parts dropped |
| ModelMapping.SplitOne | routing/matcher.go:335-352 | one character of the scan leaves the parts found and still to come unchanged as a whole |
| ModelMapping.SplitJSONPair | routing/matcher.go:360-381 | the pair is split at the first colon outside a string, both halves unquoted |
| ModelMapping.ParseModelMappingRecord | routing/matcher.go:297-325 | missing, blank, non-object and empty results give no mapping; otherwise the collected pairs |
| ModelMapping.PanicsOnlyOnLoneBrace | routing/matcher.go:305-308 | slicing off both ends fails if and only if the trimmed text is a single opening brace |
| ModelMapping.RoundTrip | routing/matcher.go:297-390 | parsing the compact JSON object of any non-empty list of plain string members returns their map, later members winning |
| ModelMapping.RoundTripMap | routing/matcher.go:297-390 | whatever order a non-empty map of plain strings is written in, parsing returns that map |
| MappingText.ObjectIsRead | routing/matcher.go:297-390 | any non-empty object is read member by member whatever its spaces, escapes and nesting: strings decoded, other values as their text, the last of equal keys winning, if no key and no string in it ends in a backslash |
| MappingText.LiteralClosesIff | routing/matcher.go:333-337 | the scan leaves a string literal at its end if and only if its inside does not end in a backslash, escaped or not |
| MappingText.BackslashMergesMembers | routing/matcher.go:333-337 | an object of two members whose first value is an escaped backslash: the parser reads one member, whose value is the rest of the text |
| Redirects.IndexAccount | routing/redirects.go:40-59 | one account's forward index is its usable entries and its reverse index gives the smallest canonical of each actual name |
| Redirects.SortStrings | routing/redirects.go:47-51 | the names in ascending order without repetition, whatever the iteration order |
| Redirects.RedirectRegistry.SetModelRedirects | routing/redirects.go:31-66 | both indexes are replaced together and index exactly the given map |
| Redirects.LookupsUnique | routing/redirects.go:70-97 | lookups depend on the input map alone |
| Redirects.LookupsAgree | routing/redirects.go:70-97 | reverse lookup answers exactly when some usable entry has that actual name, then with the smallest canonical, which looks forward to the actual name again |
| Redirects.RedirectedChannelGetsItsOwnModel | routing/matcher.go:195-208 | a channel made eligible only by a redirect is forwarded its own source model when no route mapping rewrote the name |
| Redirects.LookupsAreTheInput | routing/redirects.go:70-97 | forward lookup answers a name if and only if the input map redirects to it; reverse lookup answers one if and only if it is the smallest that redirects to the asked name |
| Redirects.ForwardedName | routing/matcher.go:420-447 | the forwarded name is the channel's own model behind a matching display name, else the account's redirect of a name that no route mapping rewrote, else the mapped name |
| Redirects.AliasDropsTheVendor | routing/matcher.go:149-159 | the alias of vendor/model is model in lower case; a name without a slash or with nothing behind it keeps all of itself |
| Redirects.ChannelServesIff | routing/matcher.go:169-208 | a channel serves a name if and only if it has no source model, or by its source model's name, alias or pattern, or because the name is the smallest one its account redirects to that source model |
| Association.EvalSound | routing/association_conditions.go:27 | an evaluated condition tree has that truth value however the missing facts turn out |
| Association.SelectEvaluated | routing/association_conditions.go:22-36 | the first evaluated match of least priority, and whether any condition stayed unevaluated |
| Association.ChoiceIsFirstOfLeastPriority | routing/association_conditions.go:33-35 | the chosen rule holds, no rule that holds has a smaller priority, and none before it has the same |
| Association.AppliedIsTheRule | routing/association_conditions.go:50-70 | an applied rule sets the priority and the order, in the candidate and its channel alike: its own order, or what the grant permits of it, in its order and with every occurrence; the conditions stay |
| Association.RestrictOrder | routing/association_conditions.go:50-64 | the rule's order restricted to the permitted bits, or the rule's order when nothing restricts it |
| Association.RestrictionKeepsOrder | routing/association_conditions.go:50-60 | the restricted order is a subsequence of the rule's order with every permitted occurrence and no other |
| Association.ResolveAssociationCandidate | routing/association_conditions.go:10-71 | missing context is reported exactly when no choice is the same under every completion; a mismatch exactly when every completion chooses nothing; a rule is applied only when every completion chooses it, otherwise the candidate is returned unchanged |
| Association.DeterminedIffUnthreatened | routing/association_conditions.go:37-45 | the evaluated choice is the choice under every completion if and only if no unevaluated rule would beat it |
| Association.ChoiceSurvivesMissingFacts | routing/association_conditions.go:37-45 | a determined choice is the one the complete request would have produced |
| Association.MissingContextCanBeOverCautious | routing/association_conditions.go:37-45 | inside a condition the report can be too cautious: a request whose context is reported missing although every completion of the facts chooses the same rule |
| AssociationFacts.KleeneSound | routing/association_conditions.go:27 | what a short-circuiting evaluator decides is the truth under every completion of the facts |
| AssociationFacts.RuleVerdict | routing/association_conditions.go:27 | a rule is evaluated if and only if it has no condition or the request gives every fact its condition asks for, and then holds exactly when the condition is true |
| AssociationFacts.KleeneDecidesMore | routing/association_conditions.go:27 | it decides everything the source's evaluator decides, in the same way |
| AssociationFacts.DecideEitherWay | routing/association_conditions.go:27 | without repeated leaves, a condition it leaves unknown can be completed to either truth value by its own leaves |
| AssociationFacts.EveryOutcomeIsPossible | routing/association_conditions.go:25-36 | without repeated leaves the unknown rules come out in every combination |
| AssociationFacts.UnthreatenedChoiceSurvives | routing/association_conditions.go:37-45 | a choice that no rule still unknown beats survives every completion of the facts |
| AssociationFacts.SomeChoiceSurvivesIff | routing/association_conditions.go:37-45 | without repeated leaves, every completion makes the same choice if and only if no rule still unknown beats the known one |
| AssociationFacts.OverCautiousIff | routing/association_conditions.go:37-45 | so a reported missing context was not needed if and only if no rule still unknown to the short-circuiting evaluator beats the choice |
| GobIds.DecodeGobSignedInt | platform/newapi_userid.go:259-289 | bytewise shifting, length check, sign decoding and range check give the specified value, always in 0 to 10 000 000 |
| GobIds.DecodeInvertsEncode | platform/newapi_userid.go:259-289 | decoding inverts the gob signed-integer encoding for every value 1 to 10 000 000 and answers 0 for every other int64 |
| GobIds.IndexOf | platform/newapi_userid.go:243-255 | the first occurrence at or after the start, or -1 exactly when there is none |
| GobIds.MarkerUnbordered | platform/newapi_userid.go:190-198 | markers of field names without the byte 4 never overlap themselves |
| GobIds.SkipMarker | platform/newapi_userid.go:236-238 | skipping a whole marker loses no occurrence of it |
| GobIds.ExtractGobFieldInts | platform/newapi_userid.go:190-241 | the distinct in-range values at the markers the scan finds, in order of first appearance: marked ids only, and all of them when the marker cannot overlap itself |
| GobIds.ScanOne | platform/newapi_userid.go:207-238 | one round finds the next marker, lists its id unless malformed or listed, and skips it, leaving what the scan yields unchanged |
| GobIds.Push | platform/newapi_userid.go:193-199 | lists an id exactly when it is one and not listed yet |
| GobIds.UnborderedScan | platform/newapi_userid.go:206-238 | on a marker that cannot overlap itself the scan reads every marked value |
| GobIds.ScanIsMarked | platform/newapi_userid.go:206-238 | on any marker the scan reads only marked values |
| GobScan.OverlapLosesAnID | platform/newapi_userid.go:236-238 | for every marker that overlaps itself, a payload from which the scan loses the id of the second of two overlapping markers |
| GobScan.ReadsAllIffUnbordered | platform/newapi_userid.go:190-241 | the scan lists every marked id of every payload if and only if the marker cannot overlap itself |
| GobScan.SomeMarkerOverlaps | platform/newapi_userid.go:201-204 | a field name whose marker does |
| GobIds.Distinct | platform/newapi_userid.go:229-234 | the listed ids are exactly the values, each once |
| GobIds.DistinctKeepsOrder | platform/newapi_userid.go:229-234 | of two listed ids the earlier one appears first in the payload |
| GobIds.FindsExactlyTheMarkedIds | platform/newapi_userid.go:190-241 | an id is found if and only if it is a positive in-range value behind some marker occurrence |
| GobIds.EncodedIdIsFound | platform/newapi_userid.go:190-289 | an id written by the encoder behind its marker is found in any surrounding payload |
| Billing.RoundError | routing/pricing_cost.go:469-474 | rounding to micro-dollars moves a non-negative amount by at most half a micro-dollar |
| Billing.NormalizeUsage | routing/pricing_cost.go:383-424 | the in-place repairs of counts and total compute the specified usage for every int64 input, wrap-around and saturation included |
| BillLines.UsageIsRepaired | routing/pricing_cost.go:383-424 | negative counts become zero, the total the larger of itself and its parts, and the billable input is the input side, less the cache tokens unless the upstream reports them apart |
| BillLines.RatesAreRoundedPrices | routing/pricing_cost.go:216-234 | every rate is its published price to the micro-dollar: two dollars per million for each unit of model ratio, completion, cache or creation ratio and multiplier, with the fallbacks for missing and negative ratios |
| BillLines.BillIsItsLines | routing/pricing_cost.go:199-265 | no bill for per-call pricing; otherwise each line is its own tokens at its own rate to the micro-dollar, and the total exactly the sum of the lines |
| BillLines.FullPriceIsItsLines | routing/pricing_cost.go:267-329 | without cache detail the whole input side is billed at the input rate, the output at the output rate, and nothing else |
| BillLines.BillIsThePublishedPrice | routing/pricing_cost.go:199-265 | the total is within half a micro-dollar per line, and per million billed tokens, of the published price of the billed tokens |
| Billing.TotalCoversParts | routing/pricing_cost.go:383-424 | a repaired total is never below prompt plus completion, unless that sum itself exceeds int64, when it saturates |
| Billing.BillableExactIff | routing/pricing_cost.go:410 | the cache tokens are subtracted exactly if and only if the difference stays in int64; beyond that unused tokens are billed |
| Billing.BillWithinRounding | routing/pricing_cost.go:199-265 | the cache-aware total differs from the unrounded bill by at most 0.5e-6 times (4 + billed tokens / 1e6) |
| Billing.CacheDiscountNeverCosts | routing/pricing_cost.go:199-329 | with cache ratios at most 1 and cache tokens inside the prompt, the total exceeds the full price by at most one micro-dollar |
| Billing.OneMicroDollarIsReached | routing/pricing_cost.go:199-329 | a usage that meets all these conditions and exceeds the full price by exactly one micro-dollar |
| Billing.ResolveGroupMultiplier | routing/pricing_cost.go:428-453 | an enabled group's positive ratio first, then the default group, then any positive ratio, else 1; always positive |
| BillLines.MultiplierIsTheFirstPriced | routing/pricing_cost.go:428-453 | the multiplier is default's when that group is enabled and priced, else that of the first enabled priced group, else some priced group's, else 1 |
| Billing.MultiplierDeterminedIff | routing/pricing_cost.go:428-453 | the multiplier is determined by the price row if and only if an enabled group has a positive ratio or all positive ratios agree |
| PriceRanking.CompareTransitive | routing/price_compare.go:216-230 | the comparator is transitive |
| PriceRanking.CompareAsymmetric | routing/price_compare.go:216-230 | the comparator is asymmetric, hence irreflexive |
| PriceRanking.NotAStrictWeakOrder | routing/price_compare.go:223-224 | incomparability is not transitive: two site names that differ only in case |
| PriceRanking.SortInPlace | routing/price_compare.go:184-190 | the nested swap loops compute the specified sorting of the array contents |
| PriceRanking.SortHasNoInversion | routing/price_compare.go:184-190 | the result is a permutation in which no row is less than an earlier one, for this comparator that is no weak order |
| PriceRanking.MarkRecommendations | routing/price_compare.go:199-212 | one pass marks exactly the first priced row of every model |
| PriceRanking.AggregatePriceCompareRows | routing/price_compare.go:178-195 | a fresh list sorted and marked; the input is not changed |
| PriceRanking.AggregateIsSortedPermutation | routing/price_compare.go:178-195 | for unflagged input, a permutation (flags aside) sorted by missing price, then cost |
| PriceRanking.ExactlyOneCheapestRecommended | routing/price_compare.go:178-212 | each model with a priced row has exactly one recommended row, a cheapest priced one; no unpriced or unnamed row is recommended |
| PriceRanking.EveryPricedModelHasItsCheapest | routing/price_compare.go:178-212 | in model names, trimmed and lower-cased: of the priced rows of a name exactly one is recommended and none is cheaper; a recommended row is priced and named |
| PriceOrder.SortedThroughSiteAndAccount | routing/price_compare.go:176-195 | every list comes out sorted by missing price, cost and lowered site name, and within one spelling of a site by account, then model |
| PriceOrder.SortKeepsSorted | routing/price_compare.go:184-192 | the sort moves nothing in a list without inversions |
| PriceOrder.DocumentedOrderGuaranteedIff | routing/price_compare.go:176-230 | rows come out in the documented order however they are arranged if and only if no two of them are tied on price, differ only in the case of the site, and differ in account or model |
| PriceOrder.DescendingAccountsStay | routing/price_compare.go:223-228 | two rows of one price and two spellings of a site whose accounts stay in descending order |
| TraceAffinity.Affinity.Get | routing/key_policy.go:32-44 | answers the stored entry if it is younger than 30 minutes, else drops it |
| TraceAffinity.Affinity.Remember | routing/key_policy.go:46-69 | drops the expired entries, then an oldest one if 4096 remain, then stores the entry with the current time |
| TraceAffinity.Affinity.DropExpired | routing/key_policy.go:52-56 | exactly the entries younger than 30 minutes remain |
| TraceAffinity.Affinity.FindOldest | routing/key_policy.go:57-66 | a key whose entry no other entry precedes |
| TraceAffinity.Affinity.RecordFailed | routing/key_policy.go:114-124 | drops the scope's entry exactly when it names the failed channel |
| TraceAffinity.EvictsOnlyOldestUnderPressure | routing/key_policy.go:46-69 | another unexpired entry goes only when at least 4096 unexpired ones remain, and then it is an oldest and the only one |
| TraceAffinity.EntryLostOnlyFor | routing/key_policy.go:32-124 | in every behaviour an entry goes only when read or swept after 30 minutes, when its channel fails, or, while another scope is stored beside at least 4096 unexpired entries, as one remembered longest ago; and then no other unexpired entry goes with it |
| TraceAffinity.HoldsOnlyLatest | routing/key_policy.go:32-69 | in every run at most 4096 entries are held, each the last one remembered for its scope and not invalidated since |
| TraceAffinity.GetAnswersOnlyLatest | routing/key_policy.go:32-44 | a lookup answers only the last value remembered for the scope, unexpired and not invalidated |
| TraceAffinity.GetExactWithoutPressure | routing/key_policy.go:32-69 | with fewer than 4096 scopes and a clock that never goes back, a lookup answers that value exactly while it is fresh |
| FixedWindow.IPRateLimiter.Allow | auth/ratelimit.go:215-237 | one request against the IP's window: new windows, count, remaining and verdict |
| FixedWindow.IPRateLimiter.CleanupTick | auth/ratelimit.go:198-211 | removes exactly the entries over for more than five minutes, one by one |
| FixedWindow.SweepsInvisible | auth/ratelimit.go:198-237 | with a non-decreasing clock any interleaving of sweeps answers as never sweeping |
| FixedWindow.ExecProjects | auth/ratelimit.go:215-237 | what one IP is answered depends on its own requests alone |
| FixedWindow.AnswerExact | auth/ratelimit.go:215-237 | after any run, with any sweeps in it, a request is the k-th of its IP since its window began and is allowed while k is within the limit, with limit - k remaining and the reset 60 000 ms after that beginning |
| FixedWindow.WindowExact | auth/ratelimit.go:215-237 | in the window an IP is in, exactly min(requests, limit) were admitted |
| FixedWindow.SpanBound | auth/ratelimit.go:215-237 | every closed span of one window length admits at most 2 * limit - 1 requests per IP |
| FixedWindow.SpanBoundReached | auth/ratelimit.go:215-237 | for every limit and every IP that bound is reached by requests around the edge of a window |
| RouteCaching.RouteCache.GetMatch | routing/cache.go:96-107 | the cached match exactly while it is younger than the TTL |
| RouteCaching.RouteCache.GetRoutes | routing/cache.go:77-84 | the routes exactly while they are loaded and younger than the TTL |
| RouteCaching.FreshUntil | routing/cache.go:77-107 | an entry is served if and only if less than the TTL has passed since its load, to the nanosecond |
| RouteCaching.RouteCache.SetMatch | routing/cache.go:110-117 | replaces the entry of this route only, with the current time |
| RouteCaching.RouteCache.SetRoutes | routing/cache.go:87-93 | replaces the routes and their time and leaves the matches |
| RouteCaching.RouteCache.InvalidateRouteScopedCache | routing/cache.go:151-159 | drops this route and its keys of the rotation memory only; non-positive ids drop nothing |
| RouteCaching.KeptIsOtherRoutes | routing/cache.go:151-159 | of a rotation memory, invalidating a route drops its keys whatever the model and no key of another route |
| RouteCaching.RouteCache.InvalidateAll | routing/cache.go:162-171 | drops routes, matches and the whole rotation memory |
| StableFirst.Rotation.ClearStableFirstCachesForRoute | routing/weights.go:550-570 | all three maps lose exactly the keys with the route's prefix |
| StableFirst.Rotation.ClearAllStableFirstCaches | routing/cache.go:173-185 | all three maps are empty |
| StableFirst.DropPrefix | routing/weights.go:555-559 | the deleting loop over one map leaves exactly the keys without the prefix |
| StableFirst.PrefixIsTheRoute | routing/weights.go:539-554 | the decimal id and colon pick out the keys of that route and of no other |
| RouteCaching.Clone | routing/cache.go:130-145 | a fresh match and array with only the first channel of this id patched, or nothing when there is none; the original is outside the frame |
| RouteCaching.RouteCache.PatchCachedChannel | routing/cache.go:125-147 | every cached match gets the patch on a clone and keeps its load time; no match or array that existed before changes, so snapshots handed out keep their contents |
| RouteCaching.CachedIsLoadedThenPatched | routing/cache.go:96-171 | in every run a route is cached exactly when it was loaded and not dropped since, and then its match is the last one loaded with every later patch on top, at that load's time |
| RouteCaching.PatchesReachOnlyTheFirst | routing/cache.go:130-145 | with patches that keep channel ids, the first channel of each id gets all of its patches in order and every other channel none |
| SiteConcurrency.SiteConcurrencyLimiter.TryAcquire | proxy/site_concurrency.go:60-78 | acquires if and only if the site or limit is non-positive or fewer slots than the limit are held; one held slot more, or none for an untracked one; other sites keep their counts |
| SiteConcurrency.SiteConcurrencyLimiter.ActiveCount | proxy/site_concurrency.go:82-93 | the number of slots of the site that are held |
| SiteConcurrency.SiteSlot.Release | proxy/site_concurrency.go:96-116 | frees exactly one slot the first time and none after that; the counter always equals the held slots, absent meaning zero |
| SiteConcurrency.SiteConcurrencyLimiter.HeldSlotIsCounted | proxy/site_concurrency.go:101-112 | a held slot is counted, so its release never finds an empty counter |
| TokenListing.AppendItems | platform/newapi_tokens.go:346-367 | accepts a page exactly when every key is present and every id usable and new, and then appends all of it |
| TokenListing.AppendKeepsSound | platform/newapi_tokens.go:346-367 | a page is accepted if and only if the whole list stays free of missing keys and repeated or unusable ids |
| TokenListing.ReadAnswer | platform/newapi_tokens.go:172-206 | the checks of an answered page before its items, in order, and when the legacy query is asked instead |
| TokenListing.TakePage | platform/newapi_tokens.go:208-238 | item limit, byte limit, acceptance, then comparison with the total |
| TokenListing.FetchLegacyItems | platform/newapi_tokens.go:246-293 | complete only with a total equal to the items, unproven without one or below it |
| TokenListing.FetchItems | platform/newapi_tokens.go:158-240 | the loop computes the specified listing with one to ten requests, whatever the upstream answers |
| TokenListing.EveryListingIsHonest | platform/newapi_tokens.go:158-293 | against every upstream: a complete listing is the first pages, all reporting exactly that many items, or such a legacy page, at most 1000 items, usable keys, no id twice; neither the fall-through nor the page-limit error can occur; not started means the first page was never answered |
| TokenListing.WellPagedIsComplete | platform/newapi_tokens.go:158-240 | full pages up to the last, all reporting the total, within the byte limit, are listed completely |
| TokenListing.ServedTokensAreListed | platform/newapi_tokens.go:158-240 | every upstream that serves at most 1000 distinct tokens by the hundred is listed exactly |
| ListingVerdicts.LegacyDecides | platform/newapi_tokens.go:246-293 | after a flat first page without total the legacy page is refused if and only if it is not usable, complete if and only if its total equals its items, and unproven otherwise |
| ListingVerdicts.CompleteIff | platform/newapi_tokens.go:158-293 | a listing is complete with these items if and only if they are full consistent pages within the limits, or a usable legacy page whose total is their number |
| ListingVerdicts.EveryFailureIsJustified | platform/newapi_tokens.go:158-293 | every failure names what is wrong with a page the upstream was asked for: its answer, its total, its items, its size or its length |
| ListingVerdicts.KeyCountsIff | platform/newapi_tokens.go:346-367 | a key counts if and only if it holds more than spaces, and is compared without the spaces around it |
| TokenHydration.CollectMaskedIDs | platform/newapi_tokens.go:415-430 | the ids of the masked items in order, or an error for an unusable or repeated one |
| TokenHydration.FirstAt | platform/newapi_tokens.go:470-474 | the first item that compares under this id |
| TokenHydration.OverwriteKey | platform/newapi_tokens.go:470-476 | overwrites in place the key of the first item with this id and nothing else |
| TokenHydration.HydrateBatch | platform/newapi_tokens.go:464-477 | fills the items of one answer in order until a key is missing or still masked |
| TokenHydration.HydrateListedTokenKeys | platform/newapi_tokens.go:408-480 | in-place hydration over all batches of one hundred computes the specified list |
| TokenHydration.HydrationIsExact | platform/newapi_tokens.go:408-480 | on distinct ids success rewrites exactly the masked items, each to the key its own batch's answer names for its own id, and leaves none masked |
| TokenHydration.HydrationSucceedsIff | platform/newapi_tokens.go:408-480 | a listed page is hydrated if and only if every masked item has an id and every lookup of a hundred of them, in order, names a present and unmasked key for each |
| TokenHydration.ValidateTokenKeys | platform/newapi_tokens.go:372-386 | accepts exactly the lists whose trimmed keys are present and pairwise different |
| TokenDelete.FindListed | platform/newapi_tokens.go:498-515 | the id of the first item with the target's identity; absence only for a complete listing |
| TokenDelete.FirstWith | platform/newapi_tokens.go:498-511 | the first item with the target's identity |
| TokenDelete.ListedTokenIDForDelete | platform/newapi_tokens.go:482-516 | listing, hydration, validation and search give the specified resolution |
| TokenDelete.Client.DeleteAPIToken | platform/newapi_tokens.go:584-655 | the DELETE requests sent and the answer are the specified ones |
| TokenDelete.ResolutionIsJustified | platform/newapi_tokens.go:482-516 | a resolved id belongs to a listed token whose real key is the target modulo its prefix; absence is reported only from a complete listing without such a token |
| TokenDelete.UnansweredIff | platform/newapi_tokens.go:484-489 | a transport counts as unanswered if and only if its first page was never answered |
| TokenDelete.DeletionIsJustified | platform/newapi_tokens.go:584-655 | against every upstream at most one DELETE is sent, through the first transport that answered, only for the owner's token with the target's real key; success without one means a blank key or a complete listing without that token |
| TokenDelete.ListedTargetIsDeleted | platform/newapi_tokens.go:584-655 | when the earlier transports never answer and the listed items can be unmasked with distinct keys, the first one whose real key is the target has its DELETE sent, and its answer is the outcome |
| TokenIdentity.IdentityExactIff | platform/base.go:364-374 | a text is taken for a bare key if and only if it shows that key: bare or behind sk-, on its own or behind Bearer, with any spaces around |
| TokenIdentity.DisplaysShowOneKey | platform/newapi_tokens.go:496-504 | a bare key and its three prefixed displays show that key and no other bare key |
| TokenIdentity.DeletionReachesOnlyItsKey | platform/newapi_tokens.go:584-655 | deleting any text that shows a bare key sends at most one DELETE, for a listed token whose real key shows it, and succeeds without one only when a complete listing has no such token |
| TokenIdentity.ShownKeyIsDeleted | platform/newapi_tokens.go:584-655 | however the key is shown in the request and in the listing, the first searchable item that shows it has its DELETE sent, and its answer is the outcome |
| TokenIdentity.DeletionOutcome | platform/newapi_tokens.go:584-655 | a sent DELETE decides the outcome; a blank key succeeds without one; when no transport answers, the listing failed |

## Left out

- KeyAdmission.KeyAdmissionLimiter.Allow: the shared-counter path is not part of this class; it is the state machine of `SharedAdmission`. Shards are one map, since a shard only groups keys under one lock.
- SharedAdmission.CountersAccountForEveryRequest: one window, so neither local pruning nor the expiry of a shared key; counters answer every call, so the fail-open branches are left out; the usage numbers reported beside a verdict are not modelled.
- KeyAdmission.EverySpanWithinLimits: assumes timestamps non-decreasing in lock order, because the timestamp is read before the lock is taken, and estimates that fit into int64 on top of the token limit.
- QuotaLedger.WindowNeverExceedsLimit: windows that partition time (calendar windows); the windows of `all_time` and `past_duration` end at the clock and move with it. Token limits have their own theorem in `QuotaVerdicts`; a cost limit holds nothing back before completion, so in-flight costs are not bounded.
- QuotaLedger.QuotaTables.ReserveManagedKeyQuota: a failed statement, lock or commit is a step that changes nothing; the sums are unbounded; costs are exact.
- QuotaLedger.QuotaTables.RecordManagedKeyQuotaUsage: a failed insert disables the key in the source; NaN and infinite costs have no counterpart.
- AdmissionChain.Gateway.ReauthorizeManagedKeyForTurn: one clock reading per turn, the memory-only limiter, and no other turn between its gates but the one that takes its last request; interleaved turns are `TurnInterleaving`.
- TurnInterleaving.EveryAdmittedTurnCountsOnce: one key whose limits are not edited while turns run, one database and one process; the static gates read the loaded row at one instant.
- AdmissionChain.Gateway.AuthorizeDownstreamToken: the owner's access, the parsed expiry and the split IP lists are fields of the key row, matching an address against a list is a parameter; the variants without reservation and the reading of already admitted video tasks are left out.
- AdmissionExplainer.ExplainerExactIff: turns of one token, and no other turn that takes the key's last request in between; a larger estimate may be refused for tokens although one more token would fit.
- ModelMapping.RoundTripMap: plain strings in compact form only; `MappingText` has the rest.
- MappingText.ObjectIsRead: `strconv.Unquote` is a parameter; keys and strings that end in a backslash are outside, because the parser does not read them back; no exact condition for whole objects, since two such literals can cancel out.
- Glob.ModelPatternMeaning: regular expressions are an uninterpreted predicate, and a pattern that does not compile is one that matches nothing.
- Association.ResolveAssociationCandidate: completions fill in rules; completions of single facts are `AssociationFacts`, where the exact condition needs conditions that ask for no fact twice. Validation of conditions is a parameter.
- Redirects.RedirectRegistry.SetModelRedirects: the two maps are fields replaced in one step; lowercasing is a parameter.
- Billing.BillWithinRounding: exact reals instead of floating point; NaN and infinity are excluded in the source too; the adjustable cache-ratio defaults and their lookup by model name are parameters; per-call pricing is left out.
- PriceRanking.AggregateIsSortedPermutation: how one row's cost is resolved is left out.
- TraceAffinity.Affinity.Remember: which of several equally old entries goes is left open, as the iteration order of the source's map is.
- RouteCaching.RouteCache.PatchCachedChannel: a patch is a function on one channel's value; pointers inside a channel that a patch might write through are not modelled.
- StableFirst.Rotation.ClearStableFirstCachesForRoute: how the rotation memory is filled and read; the global maps are one object that the cache refers to.
- SiteConcurrency.SiteSlot.Release: concurrent double release of one slot, against which the source's `held` flag has no lock; the nil limiter and the nil slot.
- TokenListing.FetchItems: JSON decoding, the alternative places of the items in a response and URLs are summed up in one answer datatype per page; numbers too large for int64 count as unusable.
- TokenHydration.HydrateListedTokenKeys: all failures are one; the messages are left out.
- TokenDelete.Client.DeleteAPIToken: the request that finds the user id, the cookie candidates and the error texts; the transports are given as a list, bearer first. Two tokens whose keys differ only by the display prefix are both the target; the first one listed is deleted.
- HTTP handlers, middleware, sessions, transports, executors, adapters other than the token listing, text classifiers, configuration and logging.
- Small pure helpers and the remaining selectors, which would only add easy members.
