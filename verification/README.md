# Verification of the agentic marketing engine's core

This project models the parts of the repository whose correctness depends on
interleavings, loops and cross-module invariants, and proves what they promise.
`dafny verify dfyconfig.toml` checks everything.

## What is modelled

**The model gateway's idempotency protocol.** `LockProtocol` is
`PostgresCache.get_or_compute` as a step system: any number of callers on any number of
replicas, one database or pool operation per step, arbitrary interleaving, `compute()`
free to fail, lock keys free to collide, replicas free to crash. A run is a sequence of
steps; `LockInvariant` is what each step keeps and `LockTheorems` what holds of every run.
The order of commit and unlock is a parameter, so that the earlier version of
`_store_and_release`, which unlocked before its commit, is there to be compared.
`PostgresCache.Cluster` is the same code in the imperative form it has in Python: each
method performs the caller's statements by name, with any steps of the others before each
of them, and is proved against the step system.

**What the protocol protects.** `GatewayProtocol` puts `handle_completion` on top of the
lock protocol: admission checks, the budget check, the provider call and the three cost
rows are separate steps of concurrent requests, and a crash of a replica stops its requests
wherever they are. `GatewayTheorems` has the results about payment, `GatewayReplies` what
a request's fields and steps mean for its reply and its bill, `GatewayBudget` those about
the daily limit, `GatewayLiveness` that every request is answered. `Completion` is
the same orchestrator as a class, one request at a time, over the in-memory repository
(`Repository`) and the single-process cache (`LocalCache`, which has its own step system
of owners, waiters and an eviction log).

**Five smaller cores**, each in the form of its source: the sliding-window rate limiter
(`RateLimiter`), the lineage walk (`Lineage`), the redaction fallback (`Fallback`), option
cards and their router (`Cards`, `Routing`), and three loops with declarative
specifications (`Baseline`, `Ledger`, `Register`).

## Assumptions

Postgres: READ COMMITTED (a statement sees everything committed before it starts);
`pg_advisory_unlock` takes effect at once and not at commit; advisory locks belong to a
session and stack; a session that dies loses its locks and its uncommitted rows; the
cache's own statements otherwise succeed (an INSERT that raised would skip the unlock at
caching.py:268-272). asyncio: code between two awaits is atomic, waiters are not
cancelled, `clear` and `set` are not called during a run. Both: `compute()` may return or
raise but, where termination is claimed, does one or the other. `task_ref` None and ""
are one value, as the code treats them. Amounts and clock readings are exact (`real`);
a uuid is a fresh number; one UTC day. Policies, schemas, pattern matching and string
functions that the code takes from libraries are parameters, so the results hold for
any of them; only the white-space and line-break functions that the baseline format
rests on are written out (`PyText`).

## Where the code and its documentation differ

- caching.py:30-34 says that a waiter re-evaluates after a failed attempt. That holds for
  `PostgresCache` (`PostgresCache.WaiterStartsAfresh`). In `LocalCache` a waiter receives
  the owner's own exception (`LocalCache.WaiterInheritsFailure` has the run,
  `LocalCache.WaiterGetsOwnersOutcome` says it of all runs); only a later caller starts
  afresh.
- The rate limiter's textbook bound, `max_calls` per window, fails as soon as checks can be
  delayed between line 30 and line 31 of rate_limiter.py. `RateLimiter.BoundIsExact` says
  for which interval lengths it holds: those up to the window less the longest delay.
- "One set of costs rows" (caching.py:3-5): the production repository writes the three rows
  in three transactions and a failure between them is swallowed. `GatewayTheorems.TornBill`
  is a run that answers 200 and leaves one row of three;
  `GatewayTheorems.CostsAreThreePerCompletion` says in which runs the count is exact.
- The daily budget is check-then-act, so requests in flight together can pass the limit.
  `GatewayBudget.RaceOvershoots` is a run that goes from below the limit to more than one
  request's cost above it, and `GatewayBudget.OvershootIsExact` says by how much it can.

## Model

| member | source | states |
|---|---|---|
| `LockTheorems.AtMostOnce` | services/model-gateway/caching.py:211-315 | in every crash-free run, with failing computes and colliding lock keys, at most one compute() per non-empty task_ref ever succeeds, and none if its row was already there |
| `LockTheorems.Agreement` | services/model-gateway/caching.py:282-315 | crashes included: each answer equals the stored row; a miss is the caller's own result; a hit is an earlier row or the result of another caller with the very same task_ref |
| `LockTheorems.SameAnswer` | services/model-gateway/caching.py:1-8 | two callers of one task_ref get the same response and at most one of them is told cache_hit=False |
| `LockTheorems.InsertNeverConflicts` | services/model-gateway/caching.py:261-267 | whenever an owner is about to insert, there is no row and no open insert for its key: the ON CONFLICT branch is never taken |
| `LockTheorems.WaiterSeesRow` | services/model-gateway/caching.py:242-257 | a waiter that has the lock after the owner's unlock finds the owner's row |
| `LockTheorems.CommitOrderIsExact` | services/model-gateway/caching.py:240-272 | no crash-free run computes a task_ref twice if and only if the commit comes before the unlock |
| `LockTheorems.RaceRun` | services/model-gateway/caching.py:244-254 | the earlier order: a run, for any two callers of one task_ref, in which both computes succeed |
| `LockTheorems.RowsArePermanent` | services/model-gateway/caching.py:259-267 | a committed row is never changed or removed, by any run, crashes included |
| `LockTheorems.CrashBound` | services/model-gateway/caching.py:193-201 | with crashes anywhere, successful computes for a task_ref number at most one plus its owners that died between compute() and commit |
| `LockTheorems.NoOrphanedLock` | services/model-gateway/caching.py:213-238 | a lock is held once, by the session of a caller that is using it, never by a pooled connection |
| `LockTheorems.OneLockPerSession` | services/model-gateway/caching.py:274-315 | a session holds at most one lock |
| `LockTheorems.ConnectionsComeBack` | services/model-gateway/caching.py:294-315 | without crashes no connection is leaked: that of every answered caller is in the pool again or in use by another caller |
| `LockTheorems.CrashLeavesRows` | services/model-gateway/caching.py:193-201 | a crash ends its replica's callers, frees its sessions' locks and connections, and leaves every committed row and every other caller as it was |
| `LockTheorems.NoDeadlock` | services/model-gateway/caching.py:211-238 | in every state the invariant allows, an unfinished caller or the holder of the lock it waits for can take its next step, whatever compute() comes to |
| `LockTheorems.EveryRunEnds` | services/model-gateway/caching.py:282-315 | a run of n callers, crashes included, has at most 8n steps, and one that can go no further has answered every caller whose replica is up; without crashes that is everybody |
| `LockInvariant.Step` | services/model-gateway/caching.py:211-315 | every step, crashes included, keeps connections apart, locks exclusive, rows true, results recorded, and one surviving owner per task_ref |
| `LockInvariant.Exclusion` | services/model-gateway/caching.py:174-180 | two callers that both hold their lock have different lock keys |
| `LockInvariant.NotReentrant` | services/model-gateway/caching.py:225-229 | a caller asking for its lock never has it already in its own session, so locks never stack |
| `PostgresCache.Cluster.GetOrCompute` | services/model-gateway/caching.py:282-315 | whatever others do between its statements: a row that was there is returned without computing; otherwise the answer is the row by then, or the caller's own result which has become the row; an exception only when compute() raised |
| `PostgresCache.Cluster.AcquireAndCheck` | services/model-gateway/caching.py:211-238 | a hit returns the row with no lock left in the session, a miss returns with the lock held once by the session |
| `PostgresCache.Cluster.AdvisoryLock` | services/model-gateway/caching.py:227-229 | the blocking call returns with the lock; the wait is finite because the holder's remaining steps run out |
| `PostgresCache.Cluster.StoreAndRelease` | services/model-gateway/caching.py:240-272 | insert, commit, unlock, in that order: afterwards the row is in the table with the caller's own response and the session holds no lock |
| `PostgresCache.WaiterStartsAfresh` | services/model-gateway/caching.py:184-191 | from any reachable state in which a caller waits for a computing owner of its task_ref, the owner can fail and the waiter then find no row, compute, store and return its own result |
| `GatewayTheorems.NeverDoubleSpends` | services/model-gateway/completion.py:431-433 | in every crash-free interleaving, all cost rows of requests with one task_ref come from one request, at most three, and none if its answer was already stored |
| `GatewayTheorems.PayersBound` | services/model-gateway/caching.py:193-201 | with crashes at any step, the requests of a task_ref that are paid for exceed one by at most the owners that died between their provider answer and their commit |
| `GatewayTheorems.OneAnswer` | services/model-gateway/caching.py:1-8 | all 200s for one task_ref carry the same body and at most one computed it; a stored body is what everybody gets |
| `GatewayTheorems.OnePayer` | services/model-gateway/completion.py:339-350 | of the requests with one task_ref at most one has a provider answer that no crash has wasted |
| `GatewayTheorems.RefusalsCostNothing` | services/model-gateway/completion.py:197-331 | a request ending 400 or 429 made no provider call and left no cost row; the decision behind a block or a 429 is on file, the latter under the id returned as queued_task_ref |
| `GatewayTheorems.HitsCostNothing` | services/model-gateway/completion.py:431-455 | a cache hit calls no provider and adds no cost row |
| `GatewayTheorems.AnswersArePaid` | services/model-gateway/completion.py:377-429 | a computed answer carries its own request's id and cost_id is present exactly when all three rows were written, and is that of the usd row |
| `GatewayTheorems.CostsAreThreePerCompletion` | services/model-gateway/db.py:222-233 | once every request is answered or dead, cost rows number exactly three per fully metered completion if and only if no step of the run failed to write, or crashed before writing, a row after the first of its bill |
| `GatewayTheorems.TornBill` | services/model-gateway/completion.py:388-429 | a run in which the second cost row fails to be written: a 200 without cost_id and the usd row alone in the table |
| `GatewayTheorems.BreachLeavesNoRow` | services/model-gateway/completion.py:315-331 | when a hard breach is raised there is no row for the task_ref and no result of the request |
| `GatewayTheorems.BreachIsReevaluated` | services/model-gateway/caching.py:184-191 | from any reachable state in which a request waits for a breached owner of its task_ref, it can take the lock over, find no row, and be decided on the spend recorded by then |
| `GatewayTheorems.OwnerAsksBudget` | services/model-gateway/completion.py:309-331 | whenever a lookup finds no row the request is at its budget check and at no provider call, and the check goes by the spend recorded by then |
| `GatewayTheorems.NoBreachIsStored` | services/model-gateway/completion.py:309-331 | each row a run adds is the answer of a request of that task_ref that was within its limit |
| `GatewayTheorems.Projection` | services/model-gateway/completion.py:431-433 | the cache steps of any gateway run are a run of the lock protocol with the same crashes |
| `GatewayReplies.RefusedByFields` | services/model-gateway/completion.py:197-305 | in every run the request's own fields decide whether it is refused and why, in the order of the checks; a barred request calls no provider, has no cost row and no other reply, and nobody else is answered 400 |
| `GatewayReplies.AdmissionMeans` | services/model-gateway/completion.py:197-305 | which of the four refusals the fields mean, and that a request gets to the cache exactly when none does |
| `GatewayReplies.BlockedStaysInside` | services/model-gateway/completion.py:267-305 | nothing the firewall matches goes upstream: no provider call, no cost row, no reply but a 400 |
| `GatewayReplies.ReplyIsHistory` | services/model-gateway/completion.py:309-455 | 429 exactly after the hard breach's gate row, 500 exactly after an exception in compute(), a computed answer exactly after the provider answered, and no budget check behind a cache hit |
| `GatewayReplies.BillIsUsage` | services/model-gateway/completion.py:377-397 | a request's rows are, in order, the dollars, tokens and milliseconds of its own provider call, under its run and that provider |
| `GatewayReplies.DecideMeans` | services/model-gateway/budget.py:41-68 | limit and ratio are the agent's own, else the defaults', else 20 and 0.8; hard breach exactly from the limit on, below it the tier asked for, or one step down from limit*ratio on where the policy has a step |
| `GatewayBudget.AnswersFollowPolicy` | services/model-gateway/budget.py:57-68 | at the very state its own check ran in: behind a 429 the recorded spend had reached the agent's limit; a computed answer had it below, and carries ok and the routed tier below limit*ratio, soft_breach and the tier the downgrade path gives from there on |
| `GatewayBudget.OvershootBound` | services/model-gateway/budget.py:57-68 | with at most k computes of an agent between check and metering, each costing at most c, its recorded spend stays below limit + k*c |
| `GatewayBudget.OvershootIsExact` | services/model-gateway/budget.py:57-68 | for an agent with enough requests, all runs within k and c stay below limit + x if and only if x >= k*c |
| `GatewayBudget.RaceOvershoots` | services/model-gateway/budget.py:57-68 | an agent below its limit with nothing in flight, and a continuation in which two requests costing c each take it above limit + c |
| `GatewayLiveness.EveryRequestIsAnswered` | services/model-gateway/completion.py:193-455 | a run of n requests, crashes included, has at most 14n steps, and one that can go no further has answered every request whose replica is up; without crashes that is every request |
| `GatewayLiveness.NoDeadlock` | services/model-gateway/completion.py:431-433 | while a request whose replica is up is unanswered, some request can take a step |
| `GatewayInvariant.Step` | services/model-gateway/completion.py:193-455 | every step, crashes included, keeps cache and request stages in agreement, bills in order under their own run, calls at most once per request |
| `Completion.Gateway.HandleCompletion` | services/model-gateway/completion.py:193-455 | by the request's fields, the agent's spend and the policy: which refusal it gets and the firewall's row, the cached body, 429 with its gate row, 500, or a new body with the granted tier, its rows and the new spend, and what the cache retains; nothing else is spent |
| `Completion.Gateway.Compute` | services/model-gateway/completion.py:309-429 | from the limit on one gate row and an exception; a failed call adds nothing; else a response with the tier and budget_state the spend grants, with the three rows of the bill, or without rows and cost_id when metering fails |
| `Completion.RetriedTask` | services/model-gateway/caching.py:1-8 | a retry with the same task_ref returns the first body as a hit and adds no cost row |
| `Repository.FakeRepository.InsertCostsRows` | services/model-gateway/db.py:106-137 | appends exactly the three rows, returns the usd row's fresh id, keeps every running total equal to the sum of its agent's usd rows; a missing run id writes nothing |
| `Repository.FakeRepository.SetAgentName` | services/model-gateway/db.py:99-100 | naming a run keeps the totals balanced when the run has no cost row yet |
| `Repository.FakeRepository.InsertGateDecision` | services/model-gateway/gate_decisions.py:54-74 | appends one row with a fresh id, never changes one, refuses a missing run id |
| `Repository.BillSpend` | services/model-gateway/db.py:29-37 | one bill raises its own agent's queried spend by its usd amount and nobody else's |
| `LocalCache.OneFlightPerKey` | services/model-gateway/caching.py:130-141 | over all interleavings, a task_ref has at most one running owner and is then not among the retained ones |
| `LocalCache.WaiterGetsOwnersOutcome` | services/model-gateway/caching.py:143-161 | a waiter's owner has its task_ref and is running or has settled; the waiter then gets exactly that outcome, result or exception |
| `LocalCache.WaiterInheritsFailure` | services/model-gateway/caching.py:143-155 | a run in which the owner raises and its waiter is told the same exception without computing, while a caller entering later starts afresh |
| `LocalCache.HitsAreOwned` | services/model-gateway/caching.py:131-145 | any cache_hit answer is the own outcome of some owner with the same task_ref |
| `LocalCache.RetainedIsReturned` | services/model-gateway/caching.py:131-134 | in every run a caller that enters while the response to its task_ref is retained is told that response with cache_hit=True, and nothing is stored or evicted for it |
| `LocalCache.OwnIsFinished` | services/model-gateway/caching.py:127-128 | a caller is told an outcome with cache_hit=False exactly when its own compute() came to it |
| `LocalCache.OldestFirst` | services/model-gateway/caching.py:99-103 | retained entries number min(stores, MAX_ENTRIES), evictions come in the order of the writes, what is left are the newest |
| `LocalCache.RecomputedOnlyAfterEviction` | services/model-gateway/caching.py:67-76 | between two successful computes of one task_ref its entry was evicted |
| `LocalCache.Step` | services/model-gateway/caching.py:122-161 | every step keeps flights, futures, answers and the eviction log in agreement |
| `LocalCache.LocalCache.Enter` | services/model-gateway/caching.py:130-141 | retained response, ride on the owner in flight, or become the owner |
| `LocalCache.LocalCache.Remember` | services/model-gateway/caching.py:99-103 | the eviction loop leaves exactly the newest MAX_ENTRIES keys with the new one last |
| `LocalCache.RememberedMeans` | services/model-gateway/caching.py:99-103 | a new key goes to the end and the oldest goes when the bound is reached; a key already there moves to the end; other responses are untouched |
| `LocalCache.LocalCache.Settle` | services/model-gateway/caching.py:147-161 | a result is stored and the flight ended, an exception only ends it; the future holds the outcome |
| `LocalCache.StoredLast` | services/model-gateway/caching.py:99-103 | the newest result is never the one evicted, if anything may be retained |
| `RateLimiter.SlidingWindowRateLimiter.Check` | mcp/mcp-web/app/rate_limiter.py:27-38 | drops exactly the stale stamps in front, admits exactly when fewer than max_calls are left, and then appends the reading |
| `RateLimiter.ThreadedBound` | mcp/mcp-web/app/rate_limiter.py:27-38 | clock read at most d before the lock: every closed interval of lock times of length at most window - d has at most max_calls admissions, the deque sorted or not |
| `RateLimiter.BoundIsExact` | mcp/mcp-web/app/rate_limiter.py:30-31 | that bound holds for an interval length if and only if the length is at most window - d |
| `RateLimiter.LogRefinement` | mcp/mcp-web/app/rate_limiter.py:27-38 | clock readings in lock order: the deque is exactly the admitted stamps of the last window, and a check is rejected exactly when max_calls admissions lie in it |
| `RateLimiter.InOrderBound` | mcp/mcp-web/app/rate_limiter.py:27-38 | then every closed window of stamps has at most max_calls admissions |
| `Lineage.ResolveLineageResult` | docs/architecture/_marketing-code/dispatch-marketing-extract.py:374-407 | on any graph, with cycles and missing rows: a result-bearing ancestor at least distance, under max_hops, through rows that exist; none exactly when there is none that near |
| `Lineage.LevelIsDistance` | docs/architecture/_marketing-code/dispatch-marketing-extract.py:389-406 | the frontier of round k is the set of tasks whose shortest depends_on path has k hops |
| `Lineage.NoneBeyondEmptyLevel` | docs/architecture/_marketing-code/dispatch-marketing-extract.py:392-393 | stopping at an empty frontier misses nothing, whatever max_hops is |
| `Lineage.Expand` | docs/architecture/_marketing-code/dispatch-marketing-extract.py:402-405 | unseen dependencies join the next frontier, seen ones never again |
| `Fallback.CompleteWithFallback` | docs/architecture/_marketing-code/dispatch-marketing-extract.py:332-362 | returns the longest suffix that is not blocked, skipped + used == fetched, at most one call per source; other errors are raised at once; "all blocked" exactly when every non-empty suffix is |
| `Fallback.UsedFollowsLastBad` | docs/architecture/_marketing-code/dispatch-marketing-extract.py:332-362 | if a batch is blocked exactly when it has a bad source, used is what follows the last bad one |
| `Fallback.AllBlockedIffLastBad` | docs/architecture/_marketing-code/dispatch-marketing-extract.py:360-362 | then everything is blocked exactly when the last source is bad or there is none |
| `Cards.AcceptedMeans` | services/options_inbox/cards.py:142-189 | validate_card accepts exactly the cards whose schema, evidence, options and autonomy policy hold |
| `Cards.RefusedAtFirst` | services/options_inbox/cards.py:142-189 | validate_card reports a check that the card's fields do not pass, with every check before it passed, and accepts exactly when all pass |
| `Cards.DuplicatesAreRepeats` | services/options_inbox/cards.py:161-163 | comparing a list's length with its set's finds exactly the lists with two equal members |
| `Cards.BuildSucceeds` | services/options_inbox/cards.py:96-139 | build_card succeeds exactly when the level is known, schema, evidence and options hold, and no level 0 or 1 draft is given a default; which cards get a default and which are realtime |
| `Cards.BuildMeans` | services/options_inbox/cards.py:96-139 | the card built is the draft with risk tier, budget class, default and lifetime by kind and level; otherwise the unknown level or validate_card's refusal of that card is reported |
| `Cards.DerivedCardsMeetPolicy` | services/options_inbox/cards.py:59-60 | with a matrix that denies defaults at levels 0 and 1, derived cards always meet the policy checks |
| `Routing.Route` | services/options_inbox/policy.py:46-96 | by the card's own fields: auto-resolved with the id of the first permission that nothing bars, defaulted, expired unresolved, escalated or in the digest, each list in order; sent then overflow is the ranked digest, sent is full before anything overflows and never above max(0, budget - realtime) |
| `Routing.ListsAreByFields` | services/options_inbox/policy.py:65-95 | membership in each list as an iff on the card's fields and the permissions' |
| `Routing.OfKeepsOrder` | services/options_inbox/policy.py:66-89 | each list keeps the order in which its cards were pending |
| `Routing.RouteIsPartition` | services/options_inbox/policy.py:65-95 | the six lists together hold every pending card exactly as often as it was pending |
| `Routing.RouteIsSafe` | services/options_inbox/policy.py:33-35 | if all pending cards were accepted, a non-negotiable one is never auto-resolved, defaulted, sent or queued, and a level 0 or 1 card is never defaulted |
| `Routing.ValidatedCardsAreSafe` | services/options_inbox/policy.py:67-89 | the same per card: escalated or expired for non-negotiable kinds |
| `Routing.RankedDescends` | services/options_inbox/policy.py:92-92 | the ranking holds the same cards in descending order of score |
| `Routing.DescendingMeans` | services/options_inbox/policy.py:92-92 | descending by the scores given, a card without one counting zero |
| `Routing.RankedIsStable` | services/options_inbox/policy.py:92-92 | cards of equal score keep their order |
| `Routing.SentIsOptimal` | services/options_inbox/policy.py:92-95 | no choice of as many digest cards has a larger total score than those sent |
| `Baseline.RoundTrip` | scripts/validate_contracts.py:207-222 | reading back a written baseline gives the same map, for digests without white space and trimmed paths without line breaks |
| `Baseline.LineRoundTrip` | scripts/validate_contracts.py:217-221 | a printed line parses to its path and digest, paths with inner spaces included |
| `Baseline.EntryLine` | scripts/validate_contracts.py:217-221 | any line of two words apart is the entry of those words, whatever white space surrounds and separates them |
| `Baseline.OneWordLine` | scripts/validate_contracts.py:217-221 | a line of one word is refused |
| `Baseline.BlankLine` | scripts/validate_contracts.py:217-219 | a blank line is no entry |
| `Baseline.CollectedMeans` | scripts/validate_contracts.py:213-222 | reading fails at the first malformed line; otherwise each path has the digest of its last entry, and no other path is recorded |
| `Baseline.CrlfLinesRoundTrip` | scripts/validate_contracts.py:209-216 | a CR LF checkout of the baseline file reads as the same lines |
| `Baseline.LinesRoundTrip` | scripts/validate_contracts.py:209-216 | the written lines come back from the text |
| `Baseline.WriteBaseline` | scripts/validate_contracts.py:207-209 | the text lists every entry once, in ascending order of paths |
| `Baseline.ReadBaseline` | scripts/validate_contracts.py:212-222 | no file is an empty baseline, otherwise the loop's result is the line-by-line parse, stopping at a malformed line |
| `Baseline.ComputeBaseline` | scripts/validate_contracts.py:188-204 | a digest of the normalized contents for every file exactly when all exist, else a missing one |
| `Baseline.CheckoutsAgree` | scripts/validate_contracts.py:194-202 | LF and CRLF checkouts of a text normalize to the same bytes if and only if it has no CR LF pair of its own |
| `Baseline.CheckGuard` | scripts/validate_contracts.py:225-250 | the guard's five outcomes and when each arises |
| `Baseline.GuardReportsChanges` | scripts/validate_contracts.py:225-250 | after a write, a later guard reports exactly the frozen files whose digest changed, so it passes right after writing and over line-ending changes |
| `Baseline.ChangedMeans` | scripts/validate_contracts.py:237-241 | exactly the recorded files whose digest differs, in the order of the frozen list |
| `Ledger.FetchAll` | console/app/services.py:50-67 | the first min(N, 20000) rows in order, in pages of 500, with one empty request after whole pages |
| `Ledger.GetCostLedger` | console/app/services.py:218-245 | one line per key, ascending, for the fetched rows whose timestamp begins with the date asked for, if one is; each total is the sum of the rows under that key, the function id or the first ten characters of the timestamp |
| `Ledger.LedgerIsGroups` | console/app/services.py:231-245 | filtering first and grouping then gives exactly that ledger |
| `Ledger.GrandTotal` | console/app/services.py:231-245 | a ledger's grand total is the sum of the rows of the day, or of all rows |
| `Ledger.SameGrandTotal` | console/app/services.py:239-245 | grouped by day or by function the grand total is the same |
| `Ordering.BelowMeans` | console/app/services.py:245-245 | the order of keys is by the first differing character, a prefix before what extends it |
| `Register.IndexIsGoverned` | functions/02-brand-steward-qa/permission_check.py:106-118 | a key maps to the entry of the last client with that canonical name, else of the first with that alias, trimmed and lower-cased, and to nothing exactly when there is neither |
| `Register.AllowedIffCleared` | functions/02-brand-steward-qa/permission_check.py:121-166 | default deny: a trimmed name is allowed exactly when a client governs it and its entry says CLEARED; otherwise the status is the entry's, UNCLEARED for a blank one, ABSENT without a client |
| `Register.LoadRegister` | functions/02-brand-steward-qa/permission_check.py:97-118 | the loading loops compute the index that IndexIsGoverned is about |
| `Register.LongestFirstOrders` | functions/02-brand-steward-qa/permission_check.py:178-184 | registered names come longest first |
| `Register.LongestFirstIsStable` | functions/02-brand-steward-qa/permission_check.py:184-184 | names of one length keep the order of the index |
| `Register.KeysGrow` | functions/02-brand-steward-qa/permission_check.py:106-118 | a key keeps the place it got when it first appeared |
| `Register.FindUnclearedInText` | functions/02-brand-steward-qa/permission_check.py:187-223 | each report is of an uncleared canonical name whose key occurs, no name twice, longest match first, and no uncleared name that occurs is missed |

## Left out

- HTTP and FastAPI wiring, provider clients, MCP clients, card rendering, telemetry, log lines, error and reason texts: no state to prove anything about.
- YAML, JSON and JSON Schema: policies, cards and registers are data, the schema a predicate.
- JSONB encoding of a cached response: a response is a value that comes back as it was stored.
- Response bodies keep the fields the results speak of (id, tier, budget_state, cost_id); content, usage and stop_reason are carried along by the same code and not modelled.
- Regular expressions, whole-word matching and SHA-256: parameters. The redaction scan is a yes/no oracle in front of the cache; content-class exemptions are inside it.
- `eval` of a permission's condition: a function that may fail, which counts as no.
- Float and Decimal rounding: amounts, scores and times are exact.
- SQL failures of the cache other than a crash, pool exhaustion, task cancellation, failures of a gate row written outside `_compute`; database failures inside `_compute` are modelled as its exceptions.
- Midnight: daily spend is that of one day.
- Rows inserted while pages are being read; timestamps that are not ISO strings.
- Universal-newline translation when a baseline is read: the parser already treats CR, LF and CR LF alike.
- A register file that is missing (an empty client list), entries that are not mappings, and the lru_cache.
- A negative max_hops, which the walk treats like zero.
- `dispatch_task`, the worker loop, `advance_dependents`, `cascade_dead_letter`: not part of this model.
- Mock tool checks, rubric and package linters, bundle reconstruction: self-contained checks without shared state.
- Lineage.ResolveLineageResult: says which distance the result has, not which of several results at that distance is taken.
- Completion.Gateway.HandleCompletion: one request at a time, and metering writes the whole bill or none of it; interleavings and torn bills are in GatewayProtocol.
- Repository.FakeRepository.InsertCostsRows: the database stores token counts and milliseconds as numerics; here they are exact amounts.
- PostgresCache.Cluster.AdvisoryLock: Postgres' queue of waiters is not modelled; any caller may get a free lock, and the wait ends because the holder is scheduled.
