# Metrune: usage accounting, replication and enrolment, verified

Metrune collects what coding assistants consumed: a command-line client reads the local history of
each session, summarizes it and uploads the summaries; a server checks, prices and stores them.
This project models the parts of both programs that carry state, arithmetic or a protocol, and
proves what they promise to each other. `dafny verify dfyconfig.toml` checks all of it.

## What is modelled

**Usage pipeline** (`Ledgers`, `Text`, `Usage`, `Turns`, `Sessions`, `Reconciliation`, `Spreading`,
`Repricing`, `ServerPrices`, `Drift`, `Ingest`). The client adds up a session twice: by turn, compacted into runs of
calls to one model, and by model. The server derives one account from the other and rejects any
mismatch, then replaces the prices and spreads each slice's cost over its steps. The central results are
`Reconciliation.ClientSnapshotReconciles`, `Repricing.RepricingReconciles` and, putting both
together, `Ingest.SnapshotSurvivesIngest`.

**Replication** (`Framing`, `Outbox`, `Queueing`, `Ingestion`, `Replication`, `Retention`, `Draining`). The client's
outbox and the server's ingestion are classes whose methods are tied to functions on tables;
`Replication` lets any number of installations, one server and an unreliable network take steps of
these functions in any order. `Replication.RunKeepsInv` is the invariant of every run;
`AcknowledgedIsSafe`, `WaitingGoesOn`, `DuplicateIsSound` and `Converged` are what follows from it.
`Retention` adds clocks: `TimelyIsSafe` and `OnlyLateAnswersHide` say how late an answer may come.
`Draining.EveryRunCanDrain` is progress from every reachable state; `Queueing.BatchAfter` says, from the
calls alone, who is sent first.

**Classification** (`Categories`, `Packing`, `Scheduling`, `BatchClassifier`, `Dominance`). Which
turns are classified how, how pending texts are cut into requests, what is made of the provider's
answers, and what a session as a whole is labelled with. Cache, rules and provider are arbitrary.

**Device enrolment** (`DeviceGrant`, `Polling`, `UserCode`). The device authorization grant of
RFC 8628, sections 3.2 to 3.5: the server's row per device code, the client's polling loop, both
together in every interleaving with browser and clock, and the codes typed by humans.

**Rate limits** (`RateLimiting`) and **price lists** (`Pricing`).

## Two ways of saying it

Where a loop computes something of its own, its contract equates the result with a function, and the
theorems are about that function. The outcome of every main operation is stated a second time in terms of
its inputs and outputs only, without that function: `ServerPrices.ApplyServerPrices`,
`Scheduling.ClassifyTurns`, `Turns.TurnIsTold`, `Sessions.AggregateSession`,
`Reconciliation.CheckReconciliation`, `Queueing.BatchAfter`, `Ingestion.Server.IngestSessions`,
`Dominance.DominantCategory`, `Pricing.Estimate` and others. There, limits and labels are written out.

## Conventions

- Amounts of money, shares and confidences are `real`; rounding of floating-point numbers is not
  modelled. The tolerance of 0.000001 in the server's comparison is.
- Token counts are `u64` values. Additions saturate where the program writes `saturating_add` and
  wrap around where it uses `sum`, as in a release build.
- `ModelCall` is a message as both groupings read it: model id canonicalized, turn number at least 1.
- Maps that the program lists in key order are followed by a list in any order (`Lists`), where
  nothing depends on the order.
- Hashes and the JSON encoding of snapshots are taken to be injective; what goes into the hashes is
  proved to determine what was hashed. Tokens and device codes are fresh values.
- A database transaction is one atomic step, and so is each single statement of the outbox. Clocks
  are inputs; where a property needs them not to run backwards, that is a precondition.
- `to_lowercase` enters with two properties only: no character's lower case takes more than four
  bytes, and text that starts with a word still does.

## What turned out to be different

- The server may take two of a session's models for one, and then rejects the session: the client keeps
  provider ids as they are, while the server ignores their letter case and surrounding blanks, and
  canonicalizing a model id is not idempotent (`anthropic/anthropic/x`). Reconciliation of a client's
  snapshot is therefore proved equivalent to the normalization keeping the session's models apart;
  `Ingest.ProviderCaseMayFail`, `ProviderBlankMayFail` and `PrefixMayFail` are sessions that fail.
- Repricing does not keep every snapshot reconciled. Three classes fail: reported slices keep deviations
  that were within the tolerance one by one but not together; steps are looked for under a provider id
  whose surrounding blanks count, which the check ignores; and the sum of a slice's tokens wraps around
  while its terms saturate. `Repricing.RepricingReconciles` is the exact condition for all snapshots that
  passed the check, with any token counts and provider ids; `Drift` has an example of each class, with
  the server's own keys. A client's own snapshots are in none of them if the session's tokens sum below
  2^64 (`Ingest.SnapshotSurvivesIngest`). `Spreading.SlicePartsExactly` says when a slice's cost is spent
  to the last fraction.
- A comment promises strictly increasing revisions; the counter stays where it is at its maximum
  (`Outbox.RevisionsRise`). Revisions that large cannot be queued, so queued revisions are distinct.
- An acknowledgement marks every older row of the session. It would hide a snapshot that the server has
  never seen if that was queued behind a newer, refused one whose row was removed before its answer was
  dealt with. `Retention.OnlyLateAnswersHide` shows that this takes an answer dealt with later after its
  request than acknowledged rows are kept. The program keeps them for 30 days
  (crates/metrune-core/src/state.rs:13) and ends requests after 30 seconds
  (crates/metrune-cli/src/app.rs:253), so that it is safe unless the client stands still for a month
  between an answer and its processing (`Retention.TimelyIsSafe`).
- In a batch answer an item that cannot be read uses up its index: a later readable item for the same
  text is passed over, and the text is asked for again (`BatchClassifier.FirstReadableWins`).
- Intents are cut at 2048 characters after their blanks were normalized, so that one may end in a blank.
  The client counts it, the endpoint does not, and the client's cut may then be longer than needed
  (`Packing.BlankMayCostRequest`).
- The classifier fingerprint does not distinguish a missing API key from an empty one
  (`Framing.FingerprintDistinguishes`).
- The team of an approved device can be removed before the code is exchanged; the installation is then
  issued without a team (`DeviceGrant.RemovedTeamIsLost`), and only then
  (`DeviceGrant.OneInstallationPerCode`).
- `upload --limit` is not bounded by the client, but the server turns batches of more than 1000 sessions
  away (`Ingestion.LargeBatchesFail`).

## Model

| member | source | states |
|---|---|---|
| Text.CanonicalIdempotent | crates/metrune-core/src/lib.rs:654-661 | canonicalizing a model id again changes nothing exactly when the trimmed and folded id neither carries the prefix `anthropic/` twice nor has a blank behind it |
| Text.CanonicalStripsOnePrefix | crates/metrune-core/src/lib.rs:654-661 | behind a vendor prefix in any case, whatever follows is kept, folded and trimmed at its end; of two prefixes the second one stays |
| Text.CanonicalNotIdempotent | crates/metrune-core/src/lib.rs:654-661 | canonicalization is not idempotent: every name behind two vendor prefixes gets shorter in a second pass |
| Usage.AddAssignCaps | crates/metrune-core/src/lib.rs:37-43 | `add_assign` is the exact sum per token class, capped at `u64::MAX`; capping may be postponed past any number of additions |
| Usage.TotalCaps | crates/metrune-core/src/lib.rs:29-35 | `total` is the exact sum over the five classes, capped once |
| Ledgers.TotalPermutation | crates/metrune-core/src/lib.rs:37-43 | sums of token counts and money do not depend on the order of their terms |
| Ledgers.TotalByClass | crates/metrune-cli/src/app.rs:1412-1422 | summing class by class (by turn, by model) gives the sum over everything |
| Turns.ActivityOrderSorts | crates/metrune-cli/src/app.rs:1556-1557 | the activity order is ascending and a permutation of the messages |
| Turns.ActivityOrderIsStable | crates/metrune-cli/src/app.rs:1556-1557 | messages with the same activity number keep their given order |
| Turns.StepsCompactRuns | crates/metrune-cli/src/app.rs:1558-1582 | there is exactly one step per maximal run of calls to one model, numbered from 0; each holds the call count, the first call's cost description and the (saturated) sums of its run |
| Turns.StepsAreRunLengthEncoding | crates/metrune-cli/src/app.rs:1558-1582 | expanding every step by its call count gives back the models called, call by call, and neighbouring steps differ |
| Turns.EncodingUnique | crates/metrune-cli/src/app.rs:1558-1582 | no other list of steps without equal neighbours expands to the same calls |
| Turns.StepsConserve | crates/metrune-cli/src/app.rs:1563-1582 | whatever models are looked at, the steps hold the tokens and the money of the calls, up to what saturation takes |
| Turns.StepKeysAreCallKeys | crates/metrune-cli/src/app.rs:1561-1582 | a step exists for a model exactly when the model was called |
| Turns.TableCountsRuns | crates/metrune-cli/src/app.rs:1583-1585 | the counters hold, for every step, how often each signal occurred in the messages of that step, modulo 2^32 |
| Turns.TableDomain | crates/metrune-cli/src/app.rs:1583-1585 | there is a counter for a signal and a step exactly when the signal occurred in that step's run |
| Turns.SignalsConserved | crates/metrune-cli/src/app.rs:1583-1600 | each signal's counts add up to its occurrences in the turn, and every `model_step_index` names an existing step |
| Turns.SignalsOfRuns | crates/metrune-cli/src/app.rs:1583-1600 | a signal is listed with a step exactly if it occurs in that step's maximal run of messages, once, with the number of its occurrences there (modulo 2^32); the list is sorted by signal, then by step |
| Turns.TurnFromMessages | crates/metrune-cli/src/app.rs:1555-1602 | the loops over the ordered messages and their signals build the turn that the next row describes |
| Turns.TurnIsTold | crates/metrune-cli/src/app.rs:1555-1602 | the turn built by the loop has one step per maximal run of the messages in activity order, compacted from it, and lists for every step the signals of its own run, with their numbers of occurrences, in order |
| Sessions.AggregateSumsUp | crates/metrune-core/src/lib.rs:525-546 | one slice per model called, holding the (saturated) sums over that model's messages |
| Sessions.AggregateKeepsFirstCost | crates/metrune-core/src/lib.rs:533-543 | a slice takes currency, kind and price origin from the first message of its model |
| Sessions.FindEarliest | crates/metrune-core/src/lib.rs:520 | a message with the least time of observation, and of several the first |
| Sessions.OneSessionAggregates | crates/metrune-core/src/lib.rs:520-528 | of the messages of a single session, all are added up |
| Sessions.AggregateSession | crates/metrune-core/src/lib.rs:514-546 | told from all messages: the session of the earliest message has one slice for every model it calls, with the (saturated) sums of its messages to that model and the cost description of the first of them; messages of other sessions do not count; no messages give no snapshot |
| Sessions.GroupMessages | crates/metrune-cli/src/app.rs:1412-1418 | every turn number maps to its messages in the given order |
| Sessions.GroupTurns | crates/metrune-cli/src/app.rs:1412-1422 | the turns of a session, in ascending order of their numbers |
| Sessions.SessionTurnsAre | crates/metrune-cli/src/app.rs:1412-1422 | there is one turn for every turn number among the messages, in strictly ascending order, made of the messages with that number |
| Sessions.InTurnKeepsOrder | crates/metrune-cli/src/app.rs:1412-1418 | the messages of a turn are exactly those with its number, in the order given |
| Sessions.SessionTurnsConserve | crates/metrune-cli/src/app.rs:1412-1422 | grouping by turn, reordering and compacting together lose no token and no money, whatever models are looked at |
| Sessions.SessionStepKeys | crates/metrune-cli/src/app.rs:1412-1422 | the turns name exactly the models that were called |
| Reconciliation.BookSteps | crates/metrune-api/src/app.rs:2285-2299 | the map filled from the steps holds, per normalized model, the capped sums over its steps |
| Reconciliation.DrainSlices | crates/metrune-api/src/app.rs:2300-2314 | emptying the map slice by slice succeeds exactly when slices and steps name the same models, each once, and agree on each |
| Reconciliation.CheckTurnOrder | crates/metrune-api/src/app.rs:2271-2277 | the test of neighbouring pairs accepts exactly strictly increasing turn numbers |
| Reconciliation.CheckStepOrder | crates/metrune-api/src/app.rs:2278-2284 | the test of neighbouring pairs accepts exactly strictly increasing step numbers |
| Reconciliation.CheckReconciliation | crates/metrune-api/src/app.rs:2254-2315 | the whole block passes a snapshot exactly when both accounts agree: equal token totals, cost totals within 0.000001 in either direction, strictly increasing numbers, the same models, each once, and for every model equal tokens and costs within 0.000001 in either direction; otherwise it reports the first test that failed, down to the first slice that is missing or differs |
| Reconciliation.TurnTokensWrap | crates/metrune-core/src/lib.rs:325-331 | the turns' token totals are added up modulo 2^64 |
| Reconciliation.SliceTokensWrap | crates/metrune-core/src/lib.rs:406-412 | so are those of the slices |
| Reconciliation.ComplaintIsUnique | crates/metrune-api/src/app.rs:2300-2314 | of the three complaints about models, exactly one is due |
| Reconciliation.ClientModelsReconcile | crates/metrune-api/src/app.rs:2285-2314 | for a client's snapshot, the per-model comparison succeeds if and only if the server's normalization keeps the session's models apart - also where token counts saturate |
| Reconciliation.ClientTotalsReconcile | crates/metrune-api/src/app.rs:2255-2270 | for a client's snapshot both cost totals are equal, and both token totals are if all tokens sum below 2^64 |
| Reconciliation.ClientInOrder | crates/metrune-api/src/app.rs:2271-2284 | a client's turns and steps are numbered in strictly increasing order |
| Reconciliation.ClientSnapshotReconciles | crates/metrune-api/src/app.rs:2254-2315 | end to end: whatever the messages of a session are, the snapshot built from them passes the block if and only if the normalization keeps its models apart |
| Spreading.CollectMatching | crates/metrune-api/src/app.rs:4525-4537 | the steps found for a slice and the (wrapping) sum of their tokens |
| Spreading.ComputeParts | crates/metrune-api/src/app.rs:4538-4548 | the amounts handed out: shares by tokens, and to the last step what is left |
| Spreading.PayMatching | crates/metrune-api/src/app.rs:4540-4551 | matching steps get their amounts in order; all others stay as they are |
| Repricing.PricedSlice | crates/metrune-api/src/app.rs:4476-4523 | pricing keeps model and tokens; a reported or unpriced cost stays, any other is replaced by an amount that does not depend on it; pricing twice is pricing once |
| Spreading.SpreadUsage | crates/metrune-api/src/app.rs:4524-4552 | the slices are spread one after the other over the same steps |
| ServerPrices.ApplyServerPrices | crates/metrune-api/src/app.rs:4471-4554 | told from the outcome: a slice that was not reported and has a price costs its tokens at that price, as an estimate in the price's currency with its authority and catalog version; all other slices stay; a step changes in its cost only, and only if a slice that was not reported goes by its name: the last such slice describes its cost, and it gets its share by tokens (their sum wraps around), or what is left if it is the slice's last step, but nothing negative |
| Spreading.PartsAddUp | crates/metrune-api/src/app.rs:4538-4548 | fair shares and the remainder add up to the whole cost, none is negative, and `max(0.0)` never clips |
| Spreading.SlicePartsAddUp | crates/metrune-api/src/app.rs:4537-4548 | so it is for the steps of every slice, also without any tokens, as long as their sum does not wrap around |
| Spreading.SlicePartsExactly | crates/metrune-api/src/app.rs:4537-4548 | with the wrapping token sum, a slice's cost is spent exactly if and only if it is zero, the sum is zero, or the tokens of all steps but the last do not exceed the sum |
| Spreading.SpreadAllKeepsShape | crates/metrune-api/src/app.rs:4524-4552 | nothing in the steps changes but their costs |
| Repricing.ReportedStepsKeep | crates/metrune-api/src/app.rs:4534-4536 | the steps of a reported slice are left exactly as they were |
| Spreading.SpreadAllNonNegative | crates/metrune-api/src/app.rs:4540-4551 | no step ends up with a negative cost |
| Repricing.RepricedSliceSpends | crates/metrune-api/src/app.rs:4524-4552 | for every slice of every snapshot without two slices of one name: by how much its steps exceed its cost after repricing, read off the snapshot before |
| Repricing.RepricedGap | crates/metrune-api/src/app.rs:4524-4552 | after repricing the totals of steps and slices differ by exactly what remains of the slices |
| Repricing.RepricingReconciles | crates/metrune-api/src/app.rs:4471-4554 | a snapshot that passed the check keeps its tokens and numbers, and passes again if and only if what remains of its slices - deviations of reported ones, steps that repricing does not find, shares of a wrapped sum - is within the tolerance, one by one and together |
| Repricing.RepricedNonNegative | crates/metrune-api/src/app.rs:4540-4551 | no cost is negative afterwards if no cost and no price was before |
| Repricing.RepriceableReconciles | crates/metrune-api/src/app.rs:4524-4552 | if models are spelled alike up to letter case and no sum of tokens wraps around, it passes again if and only if the deviations of its reported slices together stay within the tolerance |
| Repricing.RepricingTwice | crates/metrune-api/src/app.rs:4471-4554 | repricing a repriced snapshot at the same prices changes nothing, whatever the snapshot was |
| Drift.DeviationsMayUnreconcile | crates/metrune-api/src/app.rs:2308-2310 | a snapshot that passes the check with the server's keys and fails it after repricing: reported slices that deviate together |
| Drift.BlankMayUnreconcile | crates/metrune-api/src/app.rs:4529-4532 | another one: a step whose provider id has a blank behind it keeps its old cost |
| Drift.WrappingMayUnreconcile | crates/metrune-api/src/app.rs:4537-4548 | another one: token counts whose sum wraps around to zero, so that steps get more than twice their slice's cost |
| Ingest.FoldIsFiner | crates/metrune-api/src/app.rs:4529-4532 | models that repricing takes for the same are the same to the check |
| Ingest.UnblankedAlike | crates/metrune-api/src/app.rs:4529-4532 | where provider ids carry no surrounding blanks, repricing finds exactly the steps that the check books for a slice |
| Ingest.ClientLeavesNoGap | crates/metrune-api/src/app.rs:2300-2311 | for a client's snapshot every slice's cost is exactly the sum of its steps' costs, reported or not |
| Ingest.SnapshotSurvivesIngest | crates/metrune-api/src/app.rs:2081-2090 | a client's snapshot passes the check, is repriced, and passes the check again, if the server's normalization keeps the session's models apart |
| Ingest.MixedSpellingsFail | crates/metrune-api/src/app.rs:2291-2306 | a session that names a model in two ways that differ to the client but not to the server is rejected |
| Ingest.ProviderCaseMayFail | crates/metrune-api/src/app.rs:2291-2294 | such a session: the providers "Ab" and "ab" |
| Ingest.ProviderBlankMayFail | crates/metrune-api/src/app.rs:2291-2294 | another one: a provider id with and without a blank behind it |
| Ingest.PrefixMayFail | crates/metrune-core/src/lib.rs:654-661 | another one: a model id with one vendor prefix and with two |
| Packing.NormalizedIntent | crates/metrune-cli/src/app.rs:1604-1612 | an intent is empty only for blank text; otherwise it starts with a word and takes at most 8192 bytes |
| Packing.IntentIsCut | crates/metrune-cli/src/app.rs:1604-1612 | it is the lower case of the first 2048 characters of the text's words with single blanks in between |
| Packing.WordsAppend | crates/metrune-cli/src/app.rs:1604-1606 | a blank ends a word; with `Packing.SolidIsWord` this determines the words of a text |
| Packing.FindEnd | crates/metrune-cli/src/app.rs:1492-1501 | the inner loop takes as many items as one request may hold |
| Packing.GreedyIsShortest | crates/metrune-cli/src/app.rs:1491-1541 | no other cut within twelve items and 16384 bytes uses fewer requests |
| Packing.GreedyIsShortestAccepted | crates/metrune-api/src/app.rs:1893-1909 | against every cut that the endpoint accepts, the client's cut is the shortest if and only if the greedy cut of the trimmed intents is not shorter, as when no intent ends in a blank |
| Packing.BlankMayCostRequest | crates/metrune-cli/src/app.rs:1604-1612 | three intents, one of them cut behind a blank, for which the client needs two requests where the endpoint would accept one |
| Packing.GreedyIsUnique | crates/metrune-cli/src/app.rs:1491-1541 | there is only one such cut, so an unchanged list is cut alike again |
| Packing.RequestsCoverItems | crates/metrune-cli/src/app.rs:1502-1541 | every pending item is sent once, in order, and no request is empty |
| Packing.CheckBatch | crates/metrune-api/src/app.rs:1893-1909 | the managed endpoint accepts exactly the requests that meet its limits - 1 to 12 texts, none blank or above 65536 bytes once trimmed, 16384 bytes together - and otherwise names the first limit that is not met, text by text |
| Packing.RequestsAreAcceptable | crates/metrune-api/src/app.rs:1893-1909 | however a list of intents is cut within the client's limits, the managed endpoint accepts every request |
| Scheduling.FirstPass | crates/metrune-cli/src/app.rs:1433-1487 | the first loop settles, puts off or queues each turn as the decision for it says |
| Scheduling.DeferredHasPredecessor | crates/metrune-cli/src/app.rs:1475-1477 | a turn is put off only when it has a predecessor and nothing was settled before it |
| Scheduling.Distribute | crates/metrune-cli/src/app.rs:1524-1539 | an answer reaches the turns of its request in order; a short one leaves the last turns as they were, a missing one marks all as failed |
| Scheduling.RunRequests | crates/metrune-cli/src/app.rs:1491-1541 | the list is cut into consecutive requests, each as long as possible; all pending turns get their part of the answers, and no other turn is touched |
| Scheduling.Inheritances | crates/metrune-cli/src/app.rs:1542-1551 | a single pass over the put-off turns makes every turn final |
| Scheduling.ChainsSettle | crates/metrune-cli/src/app.rs:1542-1551 | a chain of put-off turns of any length ends up with what the turn at its start passes on |
| Scheduling.DeferredInherits | crates/metrune-cli/src/app.rs:1542-1551 | a put-off turn has the category of the last turn before it that was not put off if that one was sent and came back classified, and counts as having no input otherwise |
| Scheduling.ClassifyTurns | crates/metrune-cli/src/app.rs:1433-1553 | told from the verdicts: a disabled job makes no request and labels every turn not configured; a cached answer wins and is marked so; a continuation, or a turn without intent that left signals, takes over the last category settled before it; a continuation with nothing to take over gets its predecessor's final category if that has an intent and was classified; a rule decides next; exactly the rest is sent, in order, in requests as long as 12 items and 16384 bytes allow, and gets the answers |
| Scheduling.RequestsMeetTheEndpoint | crates/metrune-api/src/app.rs:1893-1909 | every request of a run is accepted by the managed endpoint |
| Dominance.Weigh | crates/metrune-core/src/lib.rs:616-629 | per category the saturated token weight and the first assignment of the greatest confidence |
| Dominance.DominantCategory | crates/metrune-core/src/lib.rs:615-638 | told from the turns: the assignment returned is that of a classified turn to which all other classified turns give way - their category has fewer (saturated) tokens, or as many and they are less certain, or as certain with a name earlier in the alphabet; within its category it is the first of the most certain ones; without classified turns it is the default |
| Dominance.RankIsAlphabetical | crates/metrune-core/src/lib.rs:92-107 | ranks follow the alphabetical order of the category names |
| Dominance.DominantIgnoresOrder | crates/metrune-core/src/lib.rs:615-638 | category, weight and confidence are the same for any order of the turns |
| Dominance.CoverageIsFraction | crates/metrune-core/src/lib.rs:421-433 | the coverage of a client's snapshot lies between 0 and 1, as the server demands, and is 1 when there are tokens and every turn is classified, if the session's tokens fit a `u64`; without tokens it is 0 |
| Dominance.CoverageIsShare | crates/metrune-core/src/lib.rs:421-433 | the coverage is the share of the classified tokens in the session's tokens |
| Dominance.ClassifiedAreCounted | crates/metrune-core/src/lib.rs:426-431 | the classified tokens are those of the classified turns and no others, added up modulo 2^64 |
| Framing.LittleEndianRoundTrip | crates/metrune-core/src/state.rs:134 | a length below 2^64 can be read back from its eight bytes |
| Framing.FramesInjective | crates/metrune-core/src/state.rs:130-136 | length-prefixed framing is injective: the bytes determine the list of values |
| Framing.UpdateDigest | crates/metrune-core/src/state.rs:130-136 | the loop hashes the prefix followed by every framed value |
| Framing.BatchBytesInjective | crates/metrune-core/src/state.rs:130-141 | two batches have the same hashed bytes exactly when they hold the same encoded snapshots in the same order |
| Framing.FingerprintDistinguishes | crates/metrune-cli/src/app.rs:1785-1810 | the fingerprint's bytes differ exactly when a setting differs; a missing API key counts as an empty one, installation token and response mode do not count |
| Outbox.RevisionsRise | crates/metrune-core/src/state.rs:351 | a new revision is not behind what was observed, exceeds the counter by no more than that takes, and rises strictly exactly as long as the counter is below 2^64 - 1 |
| Outbox.LocalState.NextRevision | crates/metrune-core/src/state.rs:338-369 | allocating a revision advances the stored counter to it |
| Outbox.LocalState.QueueSnapshot | crates/metrune-core/src/state.rs:99-108 | a snapshot replaces the row of its session unless that row is newer, waits again, and from now on; other rows stay; revisions beyond a signed 64-bit integer are refused |
| Outbox.LocalState.PendingBatch | crates/metrune-core/src/state.rs:110-124 | the batch holds the longest waiting sessions, as many as the limit allows, in order |
| Queueing.BatchAfter | crates/metrune-core/src/state.rs:99-157 | told from any list of calls that queue and acknowledge: the batch sent next holds snapshots that still wait, each session once; a session whose last effective queueing came earlier (or at the same time, under a smaller key) is in every batch that holds the later one, and before it; a batch below the limit holds everything that waits |
| Outbox.LocalState.Acknowledge | crates/metrune-core/src/state.rs:145-157 | each row is acknowledged if a snapshot at least as new is named |
| Outbox.LocalState.AcknowledgeSessionKeys | crates/metrune-core/src/state.rs:159-181 | each row is acknowledged if its session is named and a snapshot at least as new is in the batch; all others stay |
| Outbox.LocalState.PruneExpiredRows | crates/metrune-core/src/state.rs:371-382 | exactly the rows acknowledged before the cutoff are removed |
| Outbox.LocalState.ProcessAnswer | crates/metrune-cli/src/app.rs:1863-1885 | what an upload does with the server's answer, row by row: with no rejections the whole batch is acknowledged, otherwise the sessions named as accepted or rejected |
| Outbox.MarkAllAt | crates/metrune-core/src/state.rs:145-157 | a row is acknowledged exactly when a snapshot at least as new is among those named, and otherwise left as it was |
| Outbox.UploadProgress | crates/metrune-cli/src/app.rs:1863-1885 | an answer that accounts for the whole batch lowers the number of waiting sessions by exactly the size of the batch, also when rows were rejected |
| Ingestion.Server.IngestSessions | crates/metrune-api/src/app.rs:2045-2113 | one upload, told from its snapshots: above 1000 snapshots, or when a valid one fails once priced, there is no answer and no change; a known batch is answered as all duplicates; otherwise every snapshot is answered as accepted or rejected, every session of the owner shows the latest valid snapshot of the batch unless its row is newer, no other row changes, and the batch is on record if nothing was rejected |
| Ingestion.VerdictsPartition | crates/metrune-api/src/app.rs:2081-2097 | the answer names every snapshot of the batch exactly once, as accepted or as rejected |
| Ingestion.MergeAllIsMaximum | crates/metrune-api/src/app.rs:691-693 | the table holds, per session, the delivered snapshot of the highest revision, of several the last one, and nothing else |
| Ingestion.DeliveryOrderIrrelevant | crates/metrune-api/src/app.rs:691-693 | delivering the same snapshots any number of times in any order gives the same table |
| Ingestion.EveryAnswerMakesProgress | crates/metrune-cli/src/app.rs:1863-1885 | whichever way the server answers a batch - duplicate, all accepted or partly rejected - the number of waiting sessions falls by the size of the batch |
| Ingestion.RoundsDrain | crates/metrune-cli/src/app.rs:1833-1886 | repeated uploads of up to 1000 sessions drain the outbox, whatever the server answers to each: after n of them, n times the limit fewer sessions wait, until none do |
| Ingestion.LargeBatchesFail | crates/metrune-api/src/app.rs:2045-2049 | with a larger limit, and more than 1000 sessions waiting, no upload is answered and nothing changes |
| Replication.RunKeepsInv | crates/metrune-cli/src/app.rs:1833-1886 | what every run of scans, uploads, lost, late and repeated answers, retries and prunes keeps |
| Replication.AcknowledgedIsSafe | crates/metrune-core/src/state.rs:145-181 | in every run, whatever its timing, the snapshot in an acknowledged row or a newer one is on the server, or it was refused itself, or it was queued behind a newer one that was refused; the newest snapshot queued for a session is stored if valid and refused if not, and a row never pruned holds the newest |
| Retention.TimelyIsSafe | crates/metrune-cli/src/app.rs:1833-1886 | in every run in which answers are dealt with no later after sending than acknowledged rows are kept, the snapshot in an acknowledged row is stored (or a newer one is) if it is valid, and was refused itself if not |
| Retention.LateAnswerMayHide | crates/metrune-core/src/state.rs:371-376 | with answers that come later, a run that acknowledges a snapshot the server has never seen |
| Retention.OnlyLateAnswersHide | crates/metrune-core/src/state.rs:145-181 | a snapshot can be acknowledged unseen if and only if answers may come later than rows are kept and a newer snapshot of its session can be refused |
| Replication.WaitingGoesOn | crates/metrune-core/src/state.rs:145-157 | no step hides a waiting session, unless a snapshot at least as new is confirmed: a late answer never hides a newer revision |
| Draining.EveryRunCanDrain | crates/metrune-cli/src/app.rs:1833-1886 | every run can be continued until nothing waits at any installation, with answers in time if they were before; if nothing was refused, the server then shows the newest snapshots |
| Replication.SameIdSameBatch | crates/metrune-core/src/state.rs:130-141 | the id of a batch that can be sent belongs to this batch and installation alone |
| Retention.FaithfulEncodingExists | crates/metrune-core/src/state.rs:130-136 | that snapshots are determined by their encodings, as the preceding rows ask, can be met |
| Replication.DuplicateIsSound | crates/metrune-api/src/app.rs:2050-2068 | when the id of a batch that was sent is on record, all its snapshots were valid and are on the server |
| Replication.Converged | crates/metrune-api/src/app.rs:2098-2111 | whenever nothing waits and nothing was refused, the server shows for every session ever queued a queued snapshot of the highest revision, and no others |
| Replication.ConvergedExactly | crates/metrune-api/src/app.rs:2098-2111 | where one installation reports an owner's sessions, it is the newest snapshot queued |
| DeviceGrant.Authorization.Approve | crates/metrune-api/src/device_auth.rs:423-467 | approval succeeds exactly for a pending, unexpired row and a team of the organization, and binds organization, owner and team |
| DeviceGrant.Authorization.Deny | crates/metrune-api/src/device_auth.rs:453-465 | denial succeeds exactly for a pending, unexpired row |
| DeviceGrant.Authorization.Exchange | crates/metrune-api/src/device_auth.rs:598-682 | the answer to a poll in every state, five seconds more (up to 60) after a hasty poll, and the single transition to consumed with the installation that was approved |
| DeviceGrant.OneInstallationPerCode | crates/metrune-api/src/device_auth.rs:598-682 | in every run at most one installation is issued per device code: before it expires, after an approval, with that approval's organization and owner, and with its team - or none, exactly if that was removed in between |
| DeviceGrant.RemovedTeamIsLost | crates/metrune-api/src/device_auth.rs:598-682 | approval for a team, removal of the team and exchange issue an installation without a team |
| DeviceGrant.FinalStatesAbsorb | crates/metrune-api/src/device_auth.rs:616-634 | denied and consumed are final, and nothing is issued after them |
| DeviceGrant.IntervalNeverDecreases | crates/metrune-api/src/device_auth.rs:515-541 | the poll interval never decreases and stays between 5 and 60 seconds |
| Polling.Poll | crates/metrune-cli/src/app.rs:2097-2166 | the loop ends with the first answer that does not let it go on, or else with the first one that is in when the deadline of at most 900 seconds has passed - sleeps and delays counted; which answers let it go on, and which ending each of the others leads to |
| Polling.PauseIsCounted | crates/metrune-cli/src/app.rs:2104-2158 | the client sleeps for the starting interval and five seconds more for every answer so far but those that say "pending", up to 60 seconds |
| Polling.PausesGrow | crates/metrune-cli/src/app.rs:2104-2158 | the client's interval never gets shorter and never exceeds 60 seconds |
| Polling.RequestsAreBounded | crates/metrune-cli/src/app.rs:2097-2104 | the number of token requests is bounded by lifetime over starting interval, and by 900 |
| Polling.ClientKeepsPace | crates/metrune-cli/src/app.rs:2104-2158 | in every interleaving with server, browser and lost or late replies, the client sleeps at least as long as the server demands |
| UserCode.AlphabetIsThat | crates/metrune-api/src/device_auth.rs:38 | the alphabet: digits and capitals without I, L, O and U |
| UserCode.CodesAreFortyBits | crates/metrune-api/src/device_auth.rs:182-199 | the eight-symbol codes and the 40-bit numbers correspond one to one |
| UserCode.GenerateUserCode | crates/metrune-api/src/device_auth.rs:182-199 | the shift loop prints the number made of the five random bytes |
| UserCode.NormalizeReadsSpelling | crates/metrune-api/src/device_auth.rs:201-219 | a text is accepted as a code exactly when it spells that code: in any case, with O, I and L for 0 and 1, with hyphens and blanks anywhere |
| UserCode.NormalizeIdempotent | crates/metrune-api/src/device_auth.rs:201-223 | normalizing again changes nothing, and normalizing undoes displaying |
| UserCode.GeneratedIsAccepted | crates/metrune-api/src/device_auth.rs:280-282 | a generated code is always accepted and stands for the bytes it was made from |
| UserCode.CodesDiffer | crates/metrune-api/src/device_auth.rs:182-199 | different random bytes give different codes, in whatever way these are typed |
| UserCode.BitsAreBigEndian | crates/metrune-api/src/device_auth.rs:182-199 | the first byte is the highest one |
| RateLimiting.RateLimiter.Check | crates/metrune-api/src/limits.rs:157-180 | one request: expired windows go; while 100000 windows are open a new key is shed; otherwise it is counted in its window, opened now if there is none, or refused at the maximum |
| RateLimiting.EntryInjective | crates/metrune-api/src/limits.rs:164 | different scopes and keys never share an entry, as scopes contain no colon |
| RateLimiting.TableIsBounded | crates/metrune-api/src/limits.rs:165-168 | the table never holds more than 100000 windows |
| RateLimiting.BehavesLikeCounters | crates/metrune-api/src/limits.rs:157-180 | over whole runs, a request is shed exactly while 100000 windows are open and none of its own, and is otherwise judged exactly as an independent fixed-window counter for its key would |
| RateLimiting.AtMostTwiceTheBudget | crates/metrune-api/src/limits.rs:157-180 | in any stretch of time as long as the window, no key is admitted more than twice its budget |
| BatchClassifier.ParseBatchAssignments | crates/metrune-core/src/classifier.rs:647-661 | per text, the first item with its index decides, whether it can be read or not; indexes out of range are ignored |
| BatchClassifier.ReadingsAreFirst | crates/metrune-core/src/classifier.rs:647-661 | told from the items: a text has an assignment exactly if its index is in range and the first item with that index can be read, and then that one |
| BatchClassifier.ReadableItems | crates/metrune-core/src/classifier.rs:684-706 | an item can be read exactly if it names a category; its confidence is forced between 0 and 1 |
| BatchClassifier.FirstReadableWins | crates/metrune-core/src/classifier.rs:649-660 | the first readable item wins exactly where no unreadable one precedes it (or none is readable) |
| BatchClassifier.ReadableMayBePassedOver | crates/metrune-core/src/classifier.rs:650-659 | an answer in which a readable item is passed over |
| BatchClassifier.ClassifyBatch | crates/metrune-core/src/classifier.rs:564-622 | on success there is one assignment per text in order, from the batch where it can be read and from a single request otherwise; it fails exactly when a request it needs fails; the texts asked for singly are exactly the open ones in order, up to the first failure |
| BatchClassifier.OpenOnesAreOpen | crates/metrune-core/src/classifier.rs:600-604 | those are all texts the batch leaves open, each once, in order |
| BatchClassifier.RequestsAreCounted | crates/metrune-core/src/classifier.rs:587-609 | the request count is one plus the requests made for texts that the batch left open, saturated |
| BatchClassifier.TokensAreCounted | crates/metrune-core/src/classifier.rs:587-609 | the tokens are those of the batch and of the single requests for open texts, capped class by class |
| BatchClassifier.EstimatesAreMarked | crates/metrune-core/src/classifier.rs:587-609 | the usage counts as estimated exactly if any part of it is |
| BatchClassifier.NothingOpenNothingAsked | crates/metrune-core/src/classifier.rs:597-604 | a batch that leaves nothing open costs one request and the tokens of its own answer |
| Pricing.RanksAreTotal | crates/metrune-core/src/pricing.rs:225-241 | the ranks order all entries strictly |
| Pricing.SelectBest | crates/metrune-core/src/pricing.rs:209-241 | the chain of filter and maximum finds the entry that outranks all others that qualify, if any does |
| Pricing.BestIsUnique | crates/metrune-core/src/pricing.rs:209-241 | there is only one such entry |
| Pricing.Estimate | crates/metrune-core/src/pricing.rs:202-284 | a reported message is never touched; otherwise, of the entries in force for its model and provider, the one for the provider, of the highest authority, with the latest start, listed last, prices it; else the price of provider and model, else that of the model; the new cost is the tokens at that price, with currency, version and source as listed; a message that nothing prices stays as it is |
| Pricing.PricingIsAdditive | crates/metrune-core/src/pricing.rs:264-270 | pricing every message and adding up equals pricing the sum, if no token class of the sum saturates |
| Pricing.ServerAgreesWithClient | crates/metrune-api/src/app.rs:4512-4518 | with the same rates, and no token class saturated, the server's price for a slice is the amount the client had |

## Left out

- Reconciliation.ClientSnapshotReconciles: asks for at most 2^32 - 1 messages per session and for tokens that sum below 2^64; the counters of steps and calls are 32 bits wide, and the server's token totals wrap around.
- Ingest.SnapshotSurvivesIngest: asks for at most 2^32 - 1 messages and for tokens that sum below 2^64, for the same reasons.
- Retention.TimelyIsSafe: assumes that the clock of each outbox does not run backwards; it starts at zero with the installation.
- Replication.SameIdSameBatch: asks that every encoding fits a 64-bit length, as every batch that is sent does.
- Replication.Converged: where several installations of one owner queue different snapshots of one session with the same revision, it leaves open which of them the server shows; `Replication.ConvergedExactly` is the case without such ties.
- Replication.RunKeepsInv: says nothing of prices (the table records which snapshot was stored), nor of raising revisions on the server when history is repriced.
- Outbox.UploadProgress: speaks of answers that are processed; a request that fails as a whole, as when a snapshot no longer validates once priced, changes nothing and makes no progress; `Ingestion.RoundsDrain` excludes it.
- Queueing.BatchAfter: leaves out the removal of acknowledged rows, after which a session may queue an older revision again; nothing that waits is removed (`Outbox.LocalState.PruneExpiredRows`).
- Packing.GreedyIsShortest: counts bytes as the client does; `Packing.GreedyIsShortestAccepted` is about what the endpoint counts.
- Draining.EveryRunCanDrain: asks that the encoding of what waits fits a 64-bit length, and leaves out requests that fail on account of prices.
- Polling.ClientKeepsPace: assumes that nobody else polls with the same device code, and compares intervals only; the time that passes between two requests at the server also depends on the network.
- RateLimiting.AtMostTwiceTheBudget: is about windows longer than zero and budgets above zero; a budget of zero switches the limit off.
- BatchClassifier.ClassifyBatch: a request for a single text may repeat itself once when its answer cannot be read; here it is one arbitrary outcome with its own request count.
- Server size caps on turns, steps, signals and strings, the bounds on a snapshot's total tokens and costs, and the dropping of turns above 512 KiB are not modelled; snapshots without turns skip the check.
- The selection of a server price from the price table, the insertion and deletion of organization prices: prices are a parameter of repricing.
- Accumulated classifier usage in the scheduler, classification cache keys, keyword rules and the list of continuations.
- The password reset tokens, invitations and sessions of the identity module.
- The login attempt limiter, whose lockout does not look at the age of its window.
- Dates of expiry in the session table (TTL), partitions, and the merging schedule of the database.
- HTTP, SQL text, files, keyrings, e-mail, single sign-on, cryptography, the web interface and the source adapters.
