# Guarantees of the LLM reverse proxy

A Dafny model of the parts of the proxy whose guarantees hold over whole runs, with proofs of
those guarantees. `dafny verify dfyconfig.toml` checks all of it.

| files | part of the proxy |
|---|---|
| `RequestQueue`, `QueueRuns`, `QueueOrder`, `QueueSteps`, `QueueTicks`, `SlotRuns`, `BudgetRuns`, `CustomKeys`, `PoolWaits` | the request scheduler, with retries, aborts, the reaper and the slots of a custom provider |
| `KeyPriority`, `AwsKeys`, `KeySelection` | key selection, lockouts and spacing |
| `PowCaptcha`, `CaptchaHistory` | redemption of proof-of-work challenges |
| `Users`, `LoadedUsers`, `UserStore`, `UserLives`, `QuotaRuns` | the user map, its write-behind to SQLite, and quotas |
| `Fingerprints`, `CachedParts`, `CacheTracker`, `CacheEntries`, `CacheAffinity`, `CacheConversations` | the prompt-cache index |
| `Text`, `Sequences`, `MarkedText`, `OpenAIChat`, `AnthropicText`, `PromptTexts`, `SystemLines`, `ClaudeChat`, `ClaudeContent`, `Mistral`, `MistralGroups` | prompt conversion |
| `RateLimit`, `RateLimitRuns` | the sliding-window limiter |
| `ProxyRequest`, `RequestChanges` | the undo log of retried requests |
| `Migrations` | schema migration |
| `LogQueue`, `LogRuns` | the log-flush queue |

Code that works by changing state is a class, or a method with a loop, proved against a function
of the old state; the guarantees are lemmas about those functions and about runs, which are
sequences of states and events. What those functions compute is then stated a second time, without
them and from the data alone, in `QueueOrder`, `QueueSteps`, `SlotRuns`, `PoolWaits`, `KeySelection`,
`CaptchaHistory`, `LoadedUsers`, `UserLives`, `CachedParts`, `CacheEntries`, `PromptTexts`,
`ClaudeContent`, `MistralGroups`, `LogRuns` and `RequestChanges`. An async handler is two methods, split at its await, and a run
interleaves the halves of all handlers. Clocks, random draws and answers of the network are
parameters. Collections that JavaScript iterates in insertion order are iterated in any order.

## Where the code departs from what it says

The model follows the code. Where a promise fails, a lemma gives an input that shows it, or the
exact condition under which the promise holds, or both.

- The limit on a user's queued requests is checked before an await and used after it
  (`src/proxy/queue.ts:79-106`). Whenever another handler runs during that await, which takes no
  more than a turn of the microtask queue, the limit can be exceeded:
  `QueueRuns.LimitHoldsExactlyWhenNoJoinIntoFullQueue`.
- A request that the reaper has ended but not removed can still be dispatched, and so can one that a
  late handler has ended: when an attempt fails in mid-stream it is queued again, while its response
  handlers go on (`src/proxy/middleware/response/handle-streamed-response.ts:153-203`).
  `QueueRuns.DispatchedHasEndedExactlyWhen`.
- The model listing of a custom provider draws a key without waiting, and can take it past its
  per-minute cap: `QueueRuns.BudgetHoldsExactlyWhenNoSpentKeyIsListed`. The cap counts fixed windows,
  so even without the listing a minute can hold nearly twice the budget:
  `BudgetRuns.AMinuteHoldsLessThanTwiceTheBudget`, `BudgetRuns.TwiceTheBudgetIsNearlyReached`.
- A zero lockout says that some enabled key of the family is unlocked, not that it can serve the
  model; then a locked key is selected: `AwsKeys.IneligibleKeyOpensTheGateForALockedOne`.
- A tick reads the lockouts of all families before the first selection, so a key that serves several
  families can be used twice in one tick (`AwsKeys.TwoFamilyTickUsesAKeyTwice`), and a tick whose
  first dispatch takes the only unlocked key makes its second one reuse a key that an earlier tick
  used too recently (`AwsKeys.NearbyTicksUseAKeyTwice`). The exact condition is
  `AwsKeys.DispatchIsSpacedExactlyWhen`.
- The key comparator never calls the preferred key equal to itself, so it is an order only between
  different keys, which is all a sort of distinct keys asks.
- A challenge is redeemed once only while a hash fits in the lockout, and only if it names an
  address: `PowCaptcha.RedeemedOnceExactlyWhen`.
- Quota checks that overlap can spend more than the quota: `QuotaRuns.PeriodIsKeptExactlyWhen`.
- A user with absent metadata loads with empty metadata: `Users.LoadUndoesStoreExactlyWhen`.
- A lone carriage return in the system text makes the splice lose what follows it:
  `ClaudeChat.SplicedLineIsCutOut`.
- A rate limit of zero makes the wait not a number, which admits everything of that kind; with two
  kinds of request the reported wait can be too short: `RateLimitRuns.WindowsAreBoundedExactlyWhen`,
  `RateLimitRuns.WaitIsExactExactlyWhen`.
- Setting the path loses the query string of the url at the next revert, and Express answers a lookup
  of `referer` with a `referrer` header, which a revert then stores under the other name:
  `ProxyRequest.RevertsRestoreExactlyWhen`.
- A batch of log entries "failed twice" can contain entries that failed once:
  `LogQueue.RetryIsTheSameBatchExactlyWhen`.

## Model

| member | source | states |
|---|---|---|
| `QueueRuns.NoUnboundedOvertaking` | `src/proxy/queue.ts:152-190` | with a non-negative punishment factor, in every run, while a request waits and is not paused, a dispatch of its family takes it or one whose arrival time plus tokens times the factor is no more, and which first arrived by the time that this sum names for the waiting one, across any number of retries by anyone |
| `QueueRuns.WithoutPunishmentOldestFirst` | `src/proxy/queue.ts:164-173` | with a punishment factor of zero a family is served in order of first arrival |
| `QueueOrder.DispatchTradesTimeForTokens` | `src/proxy/queue.ts:152-190` | in every run a dispatch takes a request while another is ready only if, for every token that it has more, prompt and output together, it arrived the factor's number of milliseconds earlier |
| `QueueOrder.FewerTokensGoFirst` | `src/proxy/queue.ts:164-173` | of two requests that arrived together, with a positive factor, the one with fewer tokens goes first |
| `QueueOrder.LastOfEqualsGoes` | `src/proxy/queue.ts:164-173` | of requests whose claims weigh the same, the one queued last is taken |
| `QueueOrder.OnlyReadyRequestsAreTaken` | `src/proxy/queue.ts:152-163` | no dispatch takes a request of another family or one whose pause reaches past the clock |
| `QueueOrder.DispatchTakesOneExactlyWhenReady` | `src/proxy/queue.ts:152-190` | a dispatch takes exactly one request if some request of its family is ready, and otherwise none |
| `QueueOrder.RetryWaitsOutItsDelay` | `src/proxy/queue.ts:130-163` | after an attempt that failed with a delay, no dispatch takes the request before the delay is over |
| `SlotRuns.RunningRequestHoldsItsKey` | `src/proxy/custom-provider.ts:225-244` | in every run with a positive cap, a request of the provider that was dispatched, is not answered and still connected holds a slot of the very key drawn for it |
| `SlotRuns.NoKeyRunsMoreThanItsCap` | `src/proxy/custom-provider.ts:225-244` | in every run no more requests run on a key than its cap allows, counting requests and not slots |
| `SlotRuns.OneKeyProviderRunsNoMoreThanItsCap` | `src/shared/key-management/custom/provider.ts:244-279` | a provider with a single key never runs more requests than that key may take |
| `QueueSteps.EnteringAsks` | `src/proxy/queue.ts:70-119` | a request is refused if its response is over, its user's places (counted in the queue) are taken or the proxy is too busy; else it is held up at its join message or gets the last place; nobody else is touched |
| `QueueSteps.JoiningTakesAPlace` | `src/proxy/queue.ts:93-119` | one that was held up gets the last place whoever came meanwhile |
| `QueueSteps.RetryingFailsAndAsks` | `src/proxy/queue.ts:130-146` | a retry counts the attempt, sets the pause its handler asked for, gives the slot back, and then asks for a place like a new request |
| `QueueSteps.DispatchingSends` | `src/proxy/queue.ts:152-222` | a dispatch sends the request it picks: out of the queue, the others in their order, stamped, and running with the key drawn and its slot, or answered at once when no key of the provider works |
| `QueueSteps.OpenFamiliesAreServed` | `src/proxy/queue.ts:198-203` | a tick serves exactly the families whose lockout is over |
| `QueueSteps.ClosingEnds` | `src/proxy/queue.ts:109-119` | a close ends the request, takes it out of the queue if it waits, and gives its slot back; nobody else is touched |
| `QueueSteps.ReaperLeavesTheRest` | `src/proxy/queue.ts:228-247` | of each request, what a reaper pass leaves: more than five minutes after its arrival it leaves if its response has ended, else it is ended unless it cannot be told so; any other is untouched |
| `QueueRuns.InvHoldsInEveryRun` | `src/proxy/queue.ts:70-190` | in every interleaving of arrivals, joins, dispatches, retries, ends, late handlers of earlier attempts, closes and reaper passes: no duplicates in the queue, queued exactly in the queued phase with its abort listener set, a queued request holds no slot, each slot belongs to one dispatched request whose connection is open, and no key has more requests in flight than its cap, even with the model listing drawing keys past the gate |
| `QueueRuns.StepKeepsInv` | `src/proxy/queue.ts:70-247` | each single step keeps that invariant |
| `QueueRuns.IdleMeansAllSlotsFree` | `src/proxy/custom-provider.ts:225-244` | once every dispatched request is closed, no slot is held |
| `QueueRuns.BudgetHoldsExactlyWhenNoSpentKeyIsListed` | `src/shared/key-management/custom/provider.ts:89-115` | throughout a run the per-minute cap holds if and only if the model listing never draws a key that has spent its budget; the queue never breaks it |
| `QueueRuns.StepKeepsBudgetExactlyWhen` | `src/proxy/custom-provider.ts:159-167` | one step breaks the per-minute cap if and only if it lists with a spent key, and the listing draws one only when no key is free |
| `QueueRuns.DispatchedHasEndedExactlyWhen` | `src/proxy/queue.ts:152-190` | in every run a dispatched request has already ended if and only if, while it waited, an earlier reaper pass found it stale and sendable or a late handler of its last attempt failed, and nothing has removed it since |
| `QueueRuns.EndedRequestIsDispatched` | `src/proxy/queue.ts:393-416` | a run in which the reaper ends a request where it waits and the next dispatch takes it |
| `QueueRuns.ReaperDropsOnlyStaleEndedRequests` | `src/proxy/queue.ts:228-247` | the five-minute reaper removes exactly the stale requests whose response has already ended, ends the stale ones it can still answer, and touches no other |
| `QueueRuns.StepKeepsIdentities` | `src/proxy/queue.ts:130-146` | no step changes when a request started, its owner, family or prompt size; its output tokens change only when a handler of an attempt that failed in mid-stream counts them; only an arrival creates a request, stamped with the clock |
| `QueueRuns.ArrivalOf` | `src/proxy/queue.ts:130-146` | every request in a run has an arrival before, at exactly its start time |
| `QueueRuns.RetriedKeepsInv` | `src/proxy/queue.ts:130-146` | a retry gives the slot back before it queues again, so the invariant survives |
| `QueueRuns.ClosedKeepsInv` | `src/proxy/queue.ts:109-119` | a close takes exactly that request out of the queue and frees its slot |
| `QueueRuns.StepRespectsLimit` | `src/proxy/queue.ts:79-106` | only a push after an await during which another handler ran can raise a user above the limit, and then by one |
| `QueueRuns.LimitHoldsExactlyWhenNoJoinIntoFullQueue` | `src/proxy/queue.ts:79-106` | throughout a run a non-special user stays within the concurrency limit if and only if none of their requests resumes from an interrupted await while all their places are taken |
| `QueueRuns.TwoInterleavedJoinsExceedTheLimit` | `src/proxy/queue.ts:93-106` | a run in which two streaming requests of one user both pass the check before either is pushed, and both get in |
| `RequestQueue.PickIsTheLastMinimum` | `src/proxy/queue.ts:152-173` | the request taken has the lowest score among the eligible ones of its family; among equals it is the one queued last |
| `RequestQueue.SpliceAtIndexRemoves` | `src/proxy/queue.ts:174` | splicing at the index found removes that request and keeps the order of the others |
| `RequestQueue.Scheduler.Enqueue` | `src/proxy/queue.ts:70-119` | refuses ended requests, full users and overloaded non-streaming ones; stops at the await of a streaming join when another handler runs meanwhile; otherwise pushes |
| `RequestQueue.Scheduler.ReenqueueRequest` | `src/proxy/queue.ts:130-146` | slot back, pause, count, and the whole of enqueue again |
| `RequestQueue.Scheduler.LowestScore` | `src/proxy/queue.ts:164-173` | the loop computes the reduction, whose result `QueueOrder` describes |
| `RequestQueue.Scheduler.Dequeue` | `src/proxy/queue.ts:152-190` | nothing changes when no request is eligible; otherwise exactly the pick leaves and its listener is dropped |
| `RequestQueue.Scheduler.ProcessQueue` | `src/proxy/queue.ts:198-222` | a tick as the code runs it: every lockout is read and every open family dequeued before the first request proceeds |
| `QueueTicks.TickIsDispatchesOneByOne` | `src/proxy/queue.ts:198-222` | the result of such a tick is that of dispatching its families one after the other, so that what is proved of single dispatches holds of ticks |
| `QueueTicks.TickExtendsRun` | `src/proxy/queue.ts:198-222` | from the end of any run, a tick over any families and lockouts ends where the run continued by those dispatches ends, which is a run again |
| `RequestQueue.Scheduler.ProcessFamily` | `src/proxy/queue.ts:198-222` | one dispatch alone: dequeue, key, slot |
| `RequestQueue.Scheduler.OnClose` | `src/proxy/queue.ts:109-119` | the close event: abort listener and slot release |
| `RequestQueue.Scheduler.KillQueuedRequest` | `src/proxy/queue.ts:393-416` | an ended request is spliced out, another is sent an error and left in place |
| `RequestQueue.Scheduler.CleanQueue` | `src/proxy/queue.ts:228-236` | kills every request older than five minutes |
| `CustomKeys.ReleasedFreesExactlyOne` | `src/shared/key-management/custom/provider.ts:256-262` | releasing frees this request and moves nobody else |
| `CustomKeys.AcquiredMovesTheSlot` | `src/shared/key-management/custom/provider.ts:244-253` | after taking a slot the request holds that key and no other |
| `CustomKeys.LockoutIsZeroExactlyWhen` | `src/shared/key-management/custom/provider.ts:269-279` | the queue passes if and only if every key is disabled or some enabled key has budget, a free slot and no lockout |
| `CustomKeys.GatedSelectionIsFree` | `src/shared/key-management/custom/provider.ts:89-115` | a key selected behind a zero lockout has budget and a slot to spare |
| `CustomKeys.GatedHoldKeepsCaps` | `src/shared/key-management/custom/provider.ts:89-115` | selecting behind the gate and taking the slot keeps the per-minute and the concurrency cap of every key |
| `CustomKeys.BudgetSurvivesExactlyWhen` | `src/shared/key-management/custom/provider.ts:201-217` | a selection, behind the gate or not, keeps the per-minute cap if and only if the key it draws has budget left |
| `PoolWaits.LockoutIsTheShortestWait` | `src/shared/key-management/custom/provider.ts:186-279` | the queue waits for nothing if all keys are disabled, and otherwise exactly until the first key is neither locked, nor spent for its minute, nor (a quarter second at a time) full |
| `PoolWaits.MayBeDrawnExactlyWhen` | `src/shared/key-management/custom/provider.ts:89-115` | the keys that may be drawn: the enabled ones with budget and a slot, or every enabled one if there is none of these |
| `PoolWaits.DrawnKeyRests` | `src/shared/key-management/custom/provider.ts:89-115` | the key drawn is stamped and rests half a second or longer if it was to; no other key changes |
| `PoolWaits.DrawnKeyIsCounted` | `src/shared/key-management/custom/provider.ts:201-217` | the request counts in the minute its key is in, or opens a new one |
| `BudgetRuns.AMinuteHoldsLessThanTwiceTheBudget` | `src/shared/key-management/custom/provider.ts:188-217` | in every run in which no spent key is listed, any sixty seconds give one key at most one less than twice its per-minute budget of requests |
| `BudgetRuns.TwiceTheBudgetIsNearlyReached` | `src/shared/key-management/custom/provider.ts:188-217` | that bound cannot be lowered: for every budget there is such a run, with all those requests within a millisecond |
| `CustomKeys.ReleaseKeepsSlotCap` | `src/shared/key-management/key-pool.ts:198-211` | releasing keeps the concurrency cap |
| `CustomKeys.CustomKeyProvider.Release` | `src/shared/key-management/custom/provider.ts:256-262` | the scan over holders frees the slot |
| `CustomKeys.CustomKeyProvider.Acquire` | `src/shared/key-management/custom/provider.ts:244-253` | release, then add the holder |
| `CustomKeys.CustomKeyProvider.Get` | `src/shared/key-management/custom/provider.ts:89-115` | no key and no change exactly when all keys are disabled, where the code throws; otherwise counts and throttles the key drawn, and nothing else changes |
| `CustomKeys.CustomKeyProvider.CountRequest` | `src/shared/key-management/custom/provider.ts:201-217` | starts a new window when the old one is over, else counts in it |
| `CustomKeys.CustomKeyProvider.Throttle` | `src/shared/key-management/custom/provider.ts:306-315` | moves the lockout of one key forward, never back |
| `KeyPriority.CompareIsAStrictWeakOrder` | `src/shared/key-management/prioritize-keys.ts:22-38` | on keys with different hashes the comparator is antisymmetric, transitive, and its ties are transitive |
| `KeyPriority.CompareIsRankOrder` | `src/shared/key-management/prioritize-keys.ts:22-38` | the comparator is the lexicographic order of lockout, cache affinity, profile match and last use |
| `KeyPriority.CompareIsReflexiveExceptForThePreferredKey` | `src/shared/key-management/aws/provider.ts:194-208` | a key compares equal to itself if and only if it is not the unlocked preferred one |
| `KeyPriority.HeadIsTheFirstLeast` | `src/shared/key-management/prioritize-keys.ts:22-38` | the head is least, and the first such key in the list |
| `KeyPriority.SortPutsTheHeadFirst` | `src/shared/key-management/prioritize-keys.ts:22-38` | any stable sort puts that key first |
| `KeyPriority.HeadIsUnlockedIfAnyIs` | `src/shared/key-management/prioritize-keys.ts:7-11` | the key selected is unlocked if and only if some key is |
| `KeyPriority.LockoutIsZeroExactlyWhen` | `src/shared/key-management/index.ts:75-94` | the period is zero if and only if the family has no enabled key or one that is unlocked |
| `KeyPriority.LockoutCountsDownExactly` | `src/shared/key-management/index.ts:86-93` | a positive period is exact: the lockout stays positive before that moment and is zero at it |
| `AwsKeys.SelectedKeyIsUnlockedIfAnyEligibleIs` | `src/shared/key-management/aws/provider.ts:183-212` | no key is found if and only if none is eligible; else an eligible one, unlocked if and only if some eligible key is |
| `KeySelection.BestKeyIsSelected` | `src/shared/key-management/aws/provider.ts:98-212` | no key exactly when none serves the request; else one that no other comes before: free keys first and of the locked ones the soonest free, then the cached one, then those with a profile that contains the model, then by rest |
| `KeySelection.ProfileThenRestDecides` | `src/shared/key-management/aws/provider.ts:194-212` | when some key that serves is free and none of these is the cached one, the key selected has a profile whose id includes the model if and only if some free one has, and among those alike in this it has rested longest |
| `KeySelection.CachedKeyIsSelected` | `src/shared/key-management/aws/provider.ts:183-200` | a cached key that serves the request and is free is selected |
| `KeySelection.SoonestUnlockedIsSelected` | `src/shared/key-management/prioritize-keys.ts:22-38` | if every key that serves is locked, the one locked for the shortest time is selected |
| `KeySelection.FirstOfEqualsIsSelected` | `src/shared/key-management/prioritize-keys.ts:22-38` | between equals the first in the list is selected |
| `KeySelection.LockoutEndsWithTheFirstFreeKey` | `src/shared/key-management/index.ts:75-94` | the queue waits exactly until the first key that works for the family is free |
| `KeySelection.SelectedKeyRests` | `src/shared/key-management/aws/provider.ts:210-213` | a selection stamps its key, lets it rest 250 ms or longer if it was to, and changes no other |
| `KeySelection.MarkedKeyIsLocked` | `src/shared/key-management/aws/provider.ts:266-272` | a mark locks its key for five seconds from now, whatever its lockout was |
| `KeySelection.CheckedKeyIsAsFound` | `src/shared/key-management/aws/provider.ts:230-233` | a check changes what it finds and no time |
| `AwsKeys.GatedSelectionIsUnlocked` | `src/shared/key-management/aws/provider.ts:210-212` | a key selected in the very state its gate was read in, with every enabled key of the family eligible, is unlocked |
| `AwsKeys.IneligibleKeyOpensTheGateForALockedOne` | `src/proxy/queue.ts:199-201` | without that hypothesis a locked key can be selected: two keys that show it |
| `AwsKeys.DispatchIsSpacedExactlyWhen` | `src/proxy/queue.ts:198-222` | in every run of ticks, direct selections, marks and checks, a dispatch is given a key that has rested after all its uses if and only if some key that may serve it was unlocked as the tick read its gates and no earlier dispatch of the tick has taken it |
| `AwsKeys.DirectIsSpacedExactlyWhen` | `src/shared/key-management/aws/provider.ts:183-221` | a caller that does not wait is given a rested key if and only if one that may serve it is unlocked |
| `AwsKeys.QueueSpacesUsesOfAKey` | `src/proxy/queue.ts:198-222` | with every enabled key of the family eligible, a dispatch finds a rested key whenever no earlier dispatch of its tick is for a family that shares an enabled key with its own; so the first of a tick always does |
| `AwsKeys.UnlockedExactlyWhenRested` | `src/shared/key-management/aws/provider.ts:266-295` | in every run a key is unlocked if and only if it was last selected KEY_REUSE_DELAY ago or more and last marked RATE_LIMIT_LOCKOUT ago or more |
| `AwsKeys.InvHoldsInEveryRun` | `src/shared/key-management/aws/provider.ts:266-295` | each lockout is exactly what the uses of its key say, and reaches at most RATE_LIMIT_LOCKOUT ahead of the clock |
| `AwsKeys.LockoutClockNeverMovesBack` | `src/shared/key-management/aws/provider.ts:266-295` | over every run no lockout moves back |
| `AwsKeys.TwoFamilyTickUsesAKeyTwice` | `src/proxy/queue.ts:198-222` | a key alone in two families with a request waiting in each is selected twice in one tick, the second time locked |
| `AwsKeys.NearbyTicksUseAKeyTwice` | `src/proxy/queue.ts:198-222` | a run in which two different ticks, less than KEY_REUSE_DELAY apart, use one key, because the later one is crowded |
| `AwsKeys.AwsKeyProvider.Get` | `src/shared/key-management/aws/provider.ts:98-221` | selects as specified and stamps and throttles exactly that key; `KeySelection` says which key that is |
| `AwsKeys.AwsKeyProvider.Throttle` | `src/shared/key-management/aws/provider.ts:286-295` | moves one lockout to the later of its own and the reuse delay |
| `AwsKeys.AwsKeyProvider.MarkRateLimited` | `src/shared/key-management/aws/provider.ts:266-272` | locks exactly that key for the full lockout |
| `PowCaptcha.RedeemedOnceExactlyWhen` | `src/user/web/pow-captcha.ts:95-113` | for challenges that name an address, every run redeems each at most once if and only if a hash takes no longer than the lockout or a challenge does not outlive it |
| `PowCaptcha.InvHoldsInEveryTimelyRun` | `src/user/web/pow-captcha.ts:226-303` | a solve is pruned only when its challenge has expired, and each challenge has at most one handler past its checks |
| `PowCaptcha.SlowHashIsRedeemedTwice` | `src/user/web/pow-captcha.ts:289-298` | a run with a hash one millisecond too slow redeems one challenge twice |
| `PowCaptcha.UnboundChallengeIsRedeemedTwice` | `src/user/web/pow-captcha.ts:260-289` | a challenge without an address can be redeemed twice at once |
| `PowCaptcha.AttemptsFromOneAddressAreSpaced` | `src/user/web/pow-captcha.ts:229-293` | an address starts at most one verification per lockout, and none for six hours after a bogus solution |
| `PowCaptcha.LocksNeverShorten` | `src/user/web/pow-captcha.ts:100-106` | pruning and later attempts never shorten a lock |
| `PowCaptcha.ChallengeIsGoodExactlyWhen` | `src/user/web/pow-captcha.ts:115-289` | in every timely run each signed challenge was issued by the server, and its verification is started if and only if it is presented unchanged, from its address, in time and under the salt it was signed with, and has not been redeemed |
| `CaptchaHistory.FirstFailedTestAnswers` | `src/user/web/pow-captcha.ts:226-289` | in every run a request is answered by the first test it fails, in order: its address was tried within the minute (or the six hours) and not pruned, it does not parse, its signature is not that of its challenge under the salt last set, its password, its address, it was redeemed and not pruned, it is too late, its token; and is started if it fails none |
| `CaptchaHistory.RecentIsTried` | `src/user/web/pow-captcha.ts:100-106` | an address is kept waiting exactly while its last attempt, or the end of its block, is not pruned a minute later |
| `CaptchaHistory.SolvesAreRemembered` | `src/user/web/pow-captcha.ts:107-113` | a solution is remembered exactly until a pruning later than the lifetime of challenges after it |
| `CaptchaHistory.PendingIsWhatWasStarted` | `src/user/web/pow-captcha.ts:285-303` | what a handler commits after its await is the signature and address it was started with |
| `CaptchaHistory.AttemptsWait` | `src/user/web/pow-captcha.ts:229-293` | more than 60000 ms pass between two verifications from one address, and 21600000 more after a bogus solution |
| `PowCaptcha.PowVerifier.Begin` | `src/user/web/pow-captcha.ts:226-289` | the verdict of the checks in their order; only a started one marks the address |
| `PowCaptcha.PowVerifier.Resume` | `src/user/web/pow-captcha.ts:290-303` | redeems exactly on a good hash, blocks the address on a bogus one |
| `PowCaptcha.PowVerifier.Prune` | `src/user/web/pow-captcha.ts:100-113` | keeps exactly the entries that are not too old |
| `Users.LoadUndoesStoreExactlyWhen` | `src/shared/users/user-store.ts:46-117` | loading a stored user gives it back, up to absent metadata, if and only if it has an amount for exactly the known families |
| `Users.MigrationIsIdempotent` | `src/shared/users/user-store.ts:46-117` | whatever format a row is in, loading, storing and loading it again changes nothing more |
| `LoadedUsers.LoadedUsageIsWhatIsStored` | `src/shared/users/user-store.ts:46-91` | for every known family the usage after a load is the non-negative part of a stored number, the sum of the non-negative parts of a stored object, and else zero; the counts are those stored |
| `LoadedUsers.MigratedCountStandsFor` | `src/shared/users/user-store.ts:46-91` | a count is read from the row, else from the default, in either format, else it is zero |
| `LoadedUsers.LoadedLimitIsWhatIsStored` | `src/shared/users/user-store.ts:93-117` | limits and refresh amounts after a load: a stored number, the sum of a stored object if positive, else the quota |
| `LoadedUsers.LoadedUserIsAdmittedExactlyWhen` | `src/shared/users/user-store.ts:362-423` | whether the first request after a restart is admitted, read off the stored row |
| `LoadedUsers.LoadedUserKeepsItsFields` | `src/shared/users/user-store.ts:622-652` | all else is taken over from the row |
| `LoadedUsers.UnknownFamilyIsDropped` | `src/shared/users/user-store.ts:51-54` | a family the proxy does not know is not loaded |
| `Users.RefreshAdmitsExactlyItsAmount` | `src/shared/users/user-store.ts:425-450` | right after a refresh a request is admitted if and only if it is at most the refresh amount |
| `Users.QuotaPerPeriod` | `src/shared/users/user-store.ts:362-450` | over any run of checked requests, what is used after a refresh stays within that refresh amount |
| `Users.ConcurrentChecksOverspend` | `src/shared/users/user-store.ts:296-325` | two requests checked before either is counted use twice the amount |
| `QuotaRuns.PeriodIsKeptExactlyWhen` | `src/shared/users/user-store.ts:362-450` | in every run since a refresh, with checks and counts interleaved in any way, no consumption of at most what was requested can take usage past the refresh amount, if and only if what was under way at the refresh fits the amount and at each admission usage, outstanding and requested amounts together fit the limit |
| `QuotaRuns.CanOverspendExactlyWhen` | `src/shared/users/user-store.ts:296-423` | requests under way can take usage past a limit if and only if usage and outstanding amounts together exceed it |
| `QuotaRuns.StepExposure` | `src/shared/users/user-store.ts:296-325` | counting or abandoning a request never raises usage plus outstanding amounts; an admission raises it by what is requested |
| `QuotaRuns.SequentialChecksFit` | `src/shared/users/user-store.ts:362-423` | a check made while nothing is outstanding always meets the condition |
| `QuotaRuns.EndedRequestIsNotOutstanding` | `src/shared/users/user-store.ts:296-325` | a request that is counted or abandoned is no longer outstanding, and what it asked for and did not use is free again |
| `QuotaRuns.CheckedRequestIsOutstanding` | `src/shared/users/user-store.ts:362-423` | a request may be checked at any time, and what it asks for is outstanding from then on if and only if it is admitted |
| `Users.RefreshOneMoreFamily` | `src/shared/users/user-store.ts:425-450` | one more family in the loop sets at most that family's limit |
| `UserLives.RefreshSetsTheLimits` | `src/shared/users/user-store.ts:425-450` | a refresh sets each limit with a positive amount, the user's own or the quota, to that much above usage, and changes nothing else |
| `UserLives.ResetForgetsUsage` | `src/shared/users/user-store.ts:452-473` | a reset zeroes both counts of every known family and keeps legacy totals and all else |
| `UserLives.RefreshAllPassesOverTemporary` | `src/shared/users/user-store.ts:522-533` | the nightly refresh passes over temporary users only |
| `UserLives.OnlyTheAdmittedAreCounted` | `src/shared/users/user-store.ts:296-423` | a request is counted as consumed exactly when it is admitted |
| `UserLives.NewUserStartsFromNothing` | `src/shared/users/user-store.ts:154-192` | a new user has used nothing and has the quota of every family |
| `UserLives.UpdateChangesWhatItNames` | `src/shared/users/user-store.ts:211-286` | an update changes the fields it names and no other |
| `UserLives.UpdatedAmounts` | `src/shared/users/user-store.ts:223-270` | an update of amounts sets those of every known family, to zero where it gives none, but keeps a legacy total it does not give |
| `UserLives.FirstAddressesMayUseTheToken` | `src/shared/users/user-store.ts:332-360` | over any visits without automatic bans, a token may be used from as many addresses as there is room for, those that came first, and a visit succeeds if and only if it is from one of these |
| `UserLives.OneAddressTooManyBans` | `src/shared/users/user-store.ts:332-360` | with automatic bans, a token is disabled if and only if more addresses have come than there is room for |
| `UserLives.VisitComesTo` | `src/shared/users/user-store.ts:332-360` | one visit by the addresses on the list: verdict, list, stamp and ban |
| `UserLives.CleanupEndsTemporaryUsers` | `src/shared/users/user-store.ts:498-520` | a temporary user whose time is over is disabled, one disabled longer than the purge timeout is purged, and everybody else is left alone |
| `UserLives.TemporaryUserEnds` | `src/shared/users/user-store.ts:498-520` | disabled by the first cleanup after its time, purged by any that comes more than the purge timeout later |
| `UserStore.FlushRestoresAgreement` | `src/shared/users/user-store.ts:655-742` | after a flush the table agrees with memory everywhere |
| `UserStore.AgreementLoadsEverything` | `src/shared/users/user-store.ts:622-652` | with nothing waiting, loading the table gives the whole map |
| `UserStore.RestartAfterFlushRestoresEverything` | `src/shared/users/user-store.ts:622-742` | a restart after a flush loses no user and adds none |
| `UserStore.PurgedUserStaysGone` | `src/shared/users/user-store.ts:512-517` | a purged user does not come back after a flush |
| `UserStore.UserTable.constructor` | `src/shared/users/user-store.ts:622-652` | loads every row, in whatever format, and starts in agreement |
| `UserStore.UserTable.MigrateTokenCountsProperty` | `src/shared/users/user-store.ts:46-91` | fills every family from the new, the old or the default format |
| `UserStore.UserTable.MigrateTokenLimitsProperty` | `src/shared/users/user-store.ts:93-117` | fills every family with a number, or the quota when there is none |
| `UserStore.UserTable.LoadUsersFromSQLite` | `src/shared/users/user-store.ts:622-652` | the map becomes the loaded table and nothing waits for a flush |
| `UserStore.UserTable.RunTransaction` | `src/shared/users/user-store.ts:684-713` | all changed tokens are written or deleted, or none is |
| `UserStore.UserTable.FlushUsersToSQLite` | `src/shared/users/user-store.ts:655-742` | empties the set of changed tokens exactly when the transaction commits; agreement is kept either way |
| `UserStore.UserTable.CreateUser` | `src/shared/users/user-store.ts:154-192` | adds one user and marks it |
| `UserStore.UserTable.UpsertUser` | `src/shared/users/user-store.ts:211-286` | changes one user as asked, with missing counts filled in, and marks it |
| `UserStore.UserTable.IncrementPromptCount` | `src/shared/users/user-store.ts:288-294` | counts one prompt and marks the user |
| `UserStore.UserTable.IncrementTokenCount` | `src/shared/users/user-store.ts:296-330` | adds non-negative consumption to one family and marks the user |
| `UserStore.UserTable.Authenticate` | `src/shared/users/user-store.ts:332-360` | the verdict on the address, the ban or the new address, and the mark |
| `UserStore.UserTable.HasAvailableQuota` | `src/shared/users/user-store.ts:362-423` | admits as specified |
| `UserStore.UserTable.RefreshQuota` | `src/shared/users/user-store.ts:425-450` | sets the limits of the families with an amount and marks the user |
| `UserStore.UserTable.RefreshAllQuotas` | `src/shared/users/user-store.ts:522-533` | refreshes every user that is not temporary |
| `UserStore.UserTable.ResetUsage` | `src/shared/users/user-store.ts:452-473` | zeroes the counts and keeps legacy totals |
| `UserStore.UserTable.DisableUser` | `src/shared/users/user-store.ts:475-486` | disables one user and marks it |
| `UserStore.UserTable.CleanupExpiredTokens` | `src/shared/users/user-store.ts:498-520` | disables the expired, purges the long disabled, marks both, and leaves everyone else |
| `MarkedText.SplitIsLosslessAndAlternates` | `src/shared/api-schemas/anthropic.ts:301-333` | markers and chunks concatenate to the text, the roles strictly alternate, and no chunk hides the other marker |
| `MarkedText.SplitUndoesJoin` | `src/shared/api-schemas/anthropic.ts:301-333` | splitting the join of alternating clean turns gives the turns back |
| `AnthropicText.TransformAnthropicTextToAnthropicChat` | `src/shared/api-schemas/anthropic.ts:285-347` | the loop computes the specification, for every prompt |
| `AnthropicText.CollectMessages` | `src/shared/api-schemas/anthropic.ts:306-333` | the loop ends and collects one trimmed message for each turn |
| `AnthropicText.TransformedKeepsThePrompt` | `src/shared/api-schemas/anthropic.ts:285-363` | a prompt is accepted if and only if both markers occur, the human one first; then system text and turns make up the prompt and the messages are the trimmed turns |
| `AnthropicText.PrintedConversationSplitsBackExactlyWhen` | `src/shared/api-schemas/anthropic.ts:181-201` | a printed user-first, user-last conversation splits back into its messages plus an empty assistant turn if and only if no message starts with whitespace or contains the other role's marker |
| `AnthropicText.PrintIsJoinOfTurns` | `src/shared/api-schemas/anthropic.ts:181-201` | printing an unnamed conversation is joining its turns |
| `PromptTexts.RefusalsExactlyWhen` | `src/shared/api-schemas/anthropic.ts:349-363` | a prompt without both of the two markers is refused with one message, one whose assistant comes first with another, and any other is accepted |
| `PromptTexts.MessagesAreTheTexts` | `src/shared/api-schemas/anthropic.ts:301-346` | each message is the text of its turn without the space in front, and a final assistant one without the space at its end |
| `PromptTexts.EveryMessageIsPrinted` | `src/shared/api-schemas/anthropic.ts:181-201` | a prompt is, for each message in order, its role name, whom it speaks as, and its text or parts one to a line, and then the assistant marker |
| `PromptTexts.FlattenedIsTheBody` | `src/shared/api-schemas/openai.ts:100-111` | the parts of a message are printed one to a line, an image as a note |
| `ClaudeChat.OpenAIMessagesToClaudeChatPrompt` | `src/shared/api-schemas/anthropic.ts:398-501` | the loop computes the specification, for every list |
| `ClaudeChat.ConvertedAlternatesAndKeepsEverything` | `src/shared/api-schemas/anthropic.ts:398-501` | roles strictly alternate from the user; what is said is the spliced line, if any, and all blocks after the leading system messages, in order and from the same side; no messages come out only for nothing but system messages |
| `ClaudeChat.MergedSaysTheSame` | `src/shared/api-schemas/anthropic.ts:492-496` | merging neighbours loses and reorders nothing and keeps the roles alternating |
| `ClaudeContent.EveryPartIsSaid` | `src/shared/api-schemas/anthropic.ts:398-501` | every part of every message after the leading run becomes one block, in its own place, of the user's if the message is the user's and of the assistant's otherwise: a text without the space at its end, its first text behind the trimmed name or behind System, an image with the media type and data of its url |
| `ClaudeContent.NothingElseIsSaid` | `src/shared/api-schemas/anthropic.ts:398-501` | the blocks are as many as the parts, and one more if an assistant speaks first |
| `ClaudeContent.SystemPromptIsTheFirstTexts` | `src/shared/api-schemas/anthropic.ts:427-429` | unless an assistant speaks first, the system prompt is the first texts of the leading messages, each followed by a line break, without the space at the end |
| `ClaudeContent.AssistantAnswersTheLastLine` | `src/shared/api-schemas/anthropic.ts:436-466` | if an assistant speaks first, the user opens with a whole line cut out of those texts, or with a stock line if they have none, and the system prompt is what stands before it |
| `ClaudeContent.ConvertedPart` | `src/shared/api-schemas/anthropic.ts:695-725` | one part: the text without the space at its end, or the pieces of the url |
| `Text.TrimCutsOnlySpace` | `src/shared/api-schemas/anthropic.ts:476` | trimming cuts off all the space at both ends and nothing else |
| `ClaudeChat.SplicedLineIsCutOut` | `src/shared/api-schemas/anthropic.ts:443-463` | the spliced line is never empty and is cut out of the system text; the cut drops only line breaks if and only if no lone carriage return stands between two pieces of text |
| `ClaudeChat.Named` | `src/shared/api-schemas/anthropic.ts:478-486` | a name goes in front of the first text, with a colon and a space; every other block stays as it is |
| `ClaudeChat.DataUrlIsTakenApart` | `src/shared/api-schemas/anthropic.ts:705-713` | media type and data of a base64 data URL arrive intact |
| `SystemLines.LastLineDropsOnlyBreaksExactlyWhen` | `src/shared/api-schemas/anthropic.ts:444-453` | the regular expression finds a maximal run of ordinary characters, and fails only when there is none |
| `SystemLines.TextAfterLoneReturnIsLost` | `src/shared/api-schemas/anthropic.ts:444-453` | an input whose last line is lost |
| `Mistral.FixMistralPrompt` | `src/shared/api-schemas/mistral-ai.ts:137-195` | the loop computes the specification, for every list |
| `Mistral.FixedPromptIsAcceptableAndKeepsEverything` | `src/shared/api-schemas/mistral-ai.ts:137-195` | no equal neighbours, system only at the front; for any choice of roles the joined text and the images they said are kept; a prefix flag stands exactly on a final assistant message; an empty list is an error |
| `Mistral.FixedPromptIsUnchangedExactlyWhen` | `src/shared/api-schemas/mistral-ai.ts:137-195` | a prompt is left alone if and only if it is in order and a final assistant message is marked |
| `Mistral.FixedPromptIsIdempotent` | `src/shared/api-schemas/mistral-ai.ts:137-195` | fixing twice is fixing once |
| `MistralGroups.FixedPromptGroupsByRole` | `src/shared/api-schemas/mistral-ai.ts:137-195` | a fixed prompt is made of the longest runs of messages of one role, later system messages counting as the user's: each run's plain texts are joined with blank lines up to its first list, which that text then opens and everything later extends; the flag is that of the first message, or set on a final answer |
| `Mistral.ImagesAloneSayNothing` | `src/shared/api-schemas/mistral-ai.ts:201-211` | images alone read as an empty text and none is lost |
| `Mistral.MergedContentReadsAsBoth` | `src/shared/api-schemas/mistral-ai.ts:161-211` | flattened to text, a merged message reads as the two did, one after the other, with a blank line between where both have text |
| `Mistral.MergedContentKeepsBoth` | `src/shared/api-schemas/mistral-ai.ts:161-181` | each of the four merges keeps the joined text and the images |
| `Mistral.JoinedSum` | `src/shared/api-schemas/mistral-ai.ts:201-211` | joining with blank lines distributes over concatenation |
| `Fingerprints.StringPrefixIsListPrefix` | `src/shared/key-management/cache-tracker.ts:222-252` | a joined string starts with another if and only if the part lists do |
| `Fingerprints.AppendingContent` | `src/shared/key-management/cache-tracker.ts:146-252` | content after the last breakpoint leaves the fingerprint unchanged; later breakpoints extend it |
| `Fingerprints.GrowingConversationExtendsFingerprint` | `src/shared/key-management/cache-tracker.ts:146-252` | more messages keep the fingerprint or extend it |
| `Fingerprints.FingerprintWheneverMarked` | `src/shared/key-management/cache-tracker.ts:216-221` | there is a fingerprint if and only if there is a breakpoint |
| `CachedParts.ToolIsInItsPlace` | `src/shared/key-management/cache-tracker.ts:83-97` | every tool is a part in its place, with its breakpoint |
| `CachedParts.SystemIsInItsPlace` | `src/shared/key-management/cache-tracker.ts:99-145` | every block of the system prompt is a part behind the tools, a plain one a text block without a breakpoint |
| `CachedParts.MessageIsInItsPlace` | `src/shared/key-management/cache-tracker.ts:146-214` | every block of every message is a part behind those, with its role and breakpoint |
| `CachedParts.FingerprintSpellsOutTheHashes` | `src/shared/key-management/cache-tracker.ts:216-275` | there is a fingerprint exactly when there is a breakpoint, and it is the hashes of the parts up to the last one, eight characters each, in order |
| `CachedParts.EveryBreakpointHasItsFingerprint` | `src/shared/key-management/cache-tracker.ts:222-252` | every breakpoint has its own fingerprint, shallowest first |
| `CachedParts.OneLongMarkIsEnough` | `src/shared/key-management/cache-tracker.ts:255-283` | an entry is to live for an hour if any breakpoint asks for that, else for five minutes |
| `CacheEntries.UsesAreRemembered` | `src/shared/key-management/cache-tracker.ts:285-327` | after any uses of a fingerprint its entry names the last key and time, how many in a row were of that key, and the lifetime it began with; nothing else changes |
| `CacheEntries.LookupFindsTheFurthestAgreement` | `src/shared/key-management/cache-tracker.ts:340-415` | a lookup finds a live entry that agrees with the fingerprint furthest among those of which one text begins with the other, and fails exactly when there is none |
| `CacheEntries.OnlyTheDeadAreDropped` | `src/shared/key-management/cache-tracker.ts:371-438` | a lookup or a cleanup drops only what has outlived its lifetime, and a cleanup all of that |
| `CacheEntries.PlaceholdersAreLeft` | `src/shared/key-management/cache-tracker.ts:255-275` | a new fingerprint is left with an empty entry of the given lifetime, and no other entry changes |
| `CacheTracker.Tracker.GenerateCacheFingerprint` | `src/shared/key-management/cache-tracker.ts:73-275` | returns the deepest fingerprint and leaves a placeholder for each new one |
| `CacheTracker.Tracker.RecordCacheUsage` | `src/shared/key-management/cache-tracker.ts:285-327` | assigns, refreshes or takes over the one entry |
| `CacheTracker.Tracker.GetCachedKeyHash` | `src/shared/key-management/cache-tracker.ts:340-415` | returns a live, assigned entry whose match, in either direction, is longest in the map, or nothing exactly when none matches; deletes only expired entries |
| `CacheTracker.Tracker.Scan` | `src/shared/key-management/cache-tracker.ts:371-407` | the scan alone has that property |
| `CacheTracker.Tracker.CleanupExpiredCaches` | `src/shared/key-management/cache-tracker.ts:420-438` | removes exactly the expired entries |
| `CacheAffinity.GrowingConversationKeepsItsKey` | `src/shared/key-management/cache-tracker.ts:285-415` | in every run of lookups, records and cleanups, each request that extends a conversation within its lifetime is given the key last recorded for it, whatever unrelated content is served in between |
| `CacheConversations.ConversationKeepsItsKey` | `src/shared/key-management/cache-tracker.ts:73-415` | in every run of request bodies, each later request that adds messages to a conversation within its lifetime is directed to the key that served it last, whatever requests for other content come between and whether or not a key was available each time |
| `CacheConversations.ComparableExactlyWhenNotOther` | `src/shared/key-management/cache-tracker.ts:216-252` | the fingerprints of two bodies match in one direction or the other if and only if the cached parts of one body begin with those of the other |
| `CacheAffinity.ChainRequestHits` | `src/shared/key-management/cache-tracker.ts:340-415` | one extending request hits what was recorded last |
| `CacheAffinity.ServedRequestKeepsKnows` | `src/shared/key-management/cache-tracker.ts:285-327` | if it is served, it becomes what was recorded last |
| `CacheAffinity.UnservedRequestKeepsKnows` | `src/shared/key-management/aws/provider.ts:98-221` | if no key is available, the conversation keeps the entry it had |
| `CacheAffinity.OtherStepKeepsKnows` | `src/shared/key-management/cache-tracker.ts:420-438` | unrelated requests and cleanups leave the conversation's entry alone |
| `CacheAffinity.MissStartsAChain` | `src/shared/key-management/cache-tracker.ts:285-327` | after a miss the recorded entry is the only comparable one |
| `RateLimitRuns.WindowsAreBoundedExactlyWhen` | `src/proxy/rate-limit.ts:18-59` | in every run with a monotone clock no minute holds more unrefunded attempts of a key than the larger limit, whatever prunes and refunds interleave, if and only if both limits are positive |
| `RateLimitRuns.ZeroLimitAdmitsEverything` | `src/proxy/rate-limit.ts:26-27` | with a limit of zero any number of requests of that kind passes at once |
| `RateLimitRuns.KeyInvHoldsInEveryRun` | `src/proxy/rate-limit.ts:48-59` | what is stored is the end of what was admitted, and what is missing is over a minute old |
| `RateLimitRuns.PassesInRunExactlyWhen` | `src/proxy/rate-limit.ts:18-32` | in every run with positive limits a request passes if and only if fewer unrefunded attempts let through in the last minute than the limit of its kind |
| `RateLimitRuns.PassesExactlyWhen` | `src/proxy/rate-limit.ts:18-123` | a request passes if and only if its user is special, nothing is limited, no stored attempt is less than a minute old or fewer are than its limit; one that does not is to wait until the first of those is a minute old |
| `RateLimitRuns.WaitIsExactExactlyWhen` | `src/proxy/rate-limit.ts:26-27` | retries before the reported wait are refused; one at that moment passes if and only if enough attempts expire with the first |
| `RateLimitRuns.OneKindWaitIsExact` | `src/proxy/rate-limit.ts:15-32` | with requests of one kind the wait is exact, whatever prunes come between |
| `RateLimitRuns.TwoKindsWaitCanBeTooShort` | `src/proxy/rate-limit.ts:23-27` | with two kinds it can be too short |
| `RateLimitRuns.PrunesAreInvisible` | `src/proxy/rate-limit.ts:48-59` | prunes never change a decision |
| `RateLimit.Limiter.GetRetryAfter` | `src/proxy/rate-limit.ts:18-32` | the decision, and the recorded attempt when admitted |
| `RateLimit.Limiter.GetStatus` | `src/proxy/rate-limit.ts:34-46` | remaining is positive if and only if the next request is admitted; reset is the moment the reported wait ends |
| `RateLimit.Limiter.ClearOldAttempts` | `src/proxy/rate-limit.ts:49-59` | keeps exactly the recent attempts and drops empty keys |
| `RateLimit.Limiter.RefundLastAttempt` | `src/proxy/rate-limit.ts:77-81` | takes the last stored attempt back |
| `RateLimit.Limiter.IpLimiter` | `src/proxy/rate-limit.ts:83-123` | special users and disabled limits pass; otherwise the decision, with the wait rounded up to seconds |
| `ProxyRequest.RevertsRestoreExactlyWhen` | `src/proxy/middleware/request/proxy-req-manager.ts:41-111` | after any number of failed attempts with any changes, body, signed request and every header but the referer (absent ones too) are back and the last key stays; the url is back if and only if no attempt set the path or it has no query and no fragment; all headers are back from every attempt if and only if each looked the referer up as it is stored |
| `ProxyRequest.AttemptRestoresHeadersExactlyWhen` | `src/proxy/middleware/request/proxy-req-manager.ts:41-111` | one failed attempt gives all headers back if and only if, before it first touches either spelling of the referer header, a lookup answers what is stored under it |
| `ProxyRequest.StrippedRefererComesBackExactlyWhen` | `src/proxy/middleware/request/mutators/strip-headers.ts:7-9` | an attempt that strips only `referer` gives it back if and only if the request has no `referrer` header, an empty one, or an equal one |
| `ProxyRequest.StrippedThenTouchedComesBackExactlyWhen` | `src/proxy/middleware/request/mutators/finalize-signed-request.ts:18-26` | an attempt that strips `referer` and later touches `referrer` gives both back if and only if the request has no `referrer` header, or one that is not empty and equal to `referer` |
| `ProxyRequest.BothComeBackExactlyWhen` | `src/proxy/middleware/request/proxy-req-manager.ts:41-111` | an attempt that touches one spelling and later the other gives both back if and only if each lookup answers what is stored, the second made with the value the first then has |
| `ProxyRequest.FailedAttemptLeaves` | `src/proxy/middleware/request/proxy-req-manager.ts:81-111` | one attempt and its revert leave the last key and the path, and everything but headers as it was otherwise |
| `RequestChanges.HeaderIsAsLastChanged` | `src/proxy/middleware/request/proxy-req-manager.ts:41-51` | what an attempt sends has every header, under its name in lower case, as the last change to it left it |
| `RequestChanges.UntouchedHeaderStays` | `src/proxy/middleware/request/proxy-req-manager.ts:41-51` | and as it was if no change touches it |
| `RequestChanges.PartIsAsLastSet` | `src/proxy/middleware/request/proxy-req-manager.ts:53-75` | body, key, url and signed request are those set last |
| `RequestChanges.PathEndsAtTheQuery` | `src/proxy/middleware/request/proxy-req-manager.ts:65-69` | what is recorded of a url ends where its query or fragment begins |
| `ProxyRequest.ProxyReqManager.SetHeader` | `src/proxy/middleware/request/proxy-req-manager.ts:41-45` | makes the change and records what it replaced |
| `ProxyRequest.ProxyReqManager.RemoveHeader` | `src/proxy/middleware/request/proxy-req-manager.ts:47-51` | makes the change and records what it replaced |
| `ProxyRequest.ProxyReqManager.SetBody` | `src/proxy/middleware/request/proxy-req-manager.ts:53-57` | makes the change and records what it replaced |
| `ProxyRequest.ProxyReqManager.SetKey` | `src/proxy/middleware/request/proxy-req-manager.ts:59-63` | makes the change and records what it replaced |
| `ProxyRequest.ProxyReqManager.SetPath` | `src/proxy/middleware/request/proxy-req-manager.ts:65-69` | makes the change and records what it replaced |
| `ProxyRequest.ProxyReqManager.SetSignedRequest` | `src/proxy/middleware/request/proxy-req-manager.ts:71-75` | makes the change and records what it replaced |
| `ProxyRequest.ProxyReqManager.Revert` | `src/proxy/middleware/request/proxy-req-manager.ts:81-111` | undoes every recorded change, last first, and empties the log |
| `Migrations.MigrateDatabase` | `src/shared/database/index.ts:32-82` | takes every pending step: the guard inside the loop skips none |
| `Migrations.PathsDoNotMatterExactlyWhen` | `src/shared/database/index.ts:38-79` | for any storage order of contiguous versions, every path of targets ends at the last one with the schema of a fresh migration, if and only if each step down undoes its step up |
| `Migrations.RepositoryMigrationsArePathIndependent` | `src/shared/database/migrations.ts:10-61` | the three steps of the repository meet that condition |
| `Migrations.RepositorySchemas` | `src/shared/database/migrations.ts:10-61` | whatever targets a database was migrated through, the last one, or the nearest of the versions 0 to 3, says which table and indexes it holds |
| `Migrations.SortedByVersion` | `src/shared/database/index.ts:47-56` | sorting puts each version in its place, both ways |
| `Migrations.MigratedToTarget` | `src/shared/database/index.ts:38-79` | from any version on the way, one migration ends at the target or the nearest version there is |
| `LogQueue.EveryRunConservesEntries` | `src/shared/prompt-logging/log-queue.ts:22-67` | settled batches, batch in flight and queue are the accepted entries in order; a discarded batch begins with the one that failed just before; flushing pauses for minutes if and only if more than three batches were lost in a row |
| `LogQueue.NothingIsSettledTwice` | `src/shared/prompt-logging/log-queue.ts:30-67` | no entry is delivered or discarded twice |
| `LogQueue.RetryIsTheSameBatchExactlyWhen` | `src/shared/prompt-logging/log-queue.ts:35-62` | a retry submits the failed batch alone if and only if it was full or nothing else waits |
| `LogQueue.LateEntryIsDiscardedAtItsFirstFailure` | `src/shared/prompt-logging/log-queue.ts:44-58` | an entry that joined a retried batch is discarded at its first failure |
| `LogRuns.FlushTakesTheFront` | `src/shared/prompt-logging/log-queue.ts:30-40` | a flush hands over the entries at the front, twenty-five at most and fewer only if there are no more |
| `LogRuns.FailedBatchIsRetriedOnce` | `src/shared/prompt-logging/log-queue.ts:43-62` | a batch that fails goes back to the front, one that fails in a retry is discarded and counted |
| `LogRuns.StoredBatchIsSettled` | `src/shared/prompt-logging/log-queue.ts:40-42` | a batch that is stored is settled and clears what failed before |
| `LogRuns.EntriesAreTakenWhileStarted` | `src/shared/prompt-logging/log-queue.ts:22-28` | an entry is queued last while the queue is started, and dropped otherwise |
| `LogRuns.NothingBeforeTheStart` | `src/shared/prompt-logging/log-queue.ts:22-33` | until the queue is started nothing is accepted or handed over |
| `LogRuns.WaitsInMilliseconds` | `src/shared/prompt-logging/log-queue.ts:64-131` | in every run the wait is ten seconds, or five if thirteen entries or more wait; after four lost batches a minute for each, and ten minutes at most |
| `LogQueue.Log.Enqueue` | `src/shared/prompt-logging/log-queue.ts:22-28` | appends when started, discards otherwise |
| `LogQueue.Log.Flush` | `src/shared/prompt-logging/log-queue.ts:30-40` | takes a batch of at most 25 off the front, or only reschedules |
| `LogQueue.Log.AppendSucceeded` | `src/shared/prompt-logging/log-queue.ts:40-42` | clears the retry state and reschedules |
| `LogQueue.Log.AppendFailed` | `src/shared/prompt-logging/log-queue.ts:43-62` | puts the batch back in front once; the second time drops and counts it |
| `LogQueue.Log.ScheduleFlush` | `src/shared/prompt-logging/log-queue.ts:101-131` | ten seconds, half of that, or minutes of backoff up to ten |

## Left out

- Wait-time averages and the pruning of `waitTimes` (`src/proxy/queue.ts:238-241`), heartbeats, SSE writes, http-proxy wiring and listener removal: only their events (joined, timed out, closed) appear.
- Several custom providers at once: one provider with its family is modelled; slots of different providers are separate maps in the code.
- The steps of a dispatch are one event: the mutators between dequeue and hold run in one turn of the event loop, with no I/O between them. A tick over several families is its dispatches in turn (`QueueTicks.TickExtendsRun`).
- Requests are records in a map keyed by id, and removal from the queue goes by id, where the code compares object identity.
- Key list changes (disabling, rechecks, rate-limit marks from responses) are one event that replaces the keys of the custom provider.
- AwsKeys.AwsKeyProvider.Throttle: requires the hash to be in the pool, as its only caller in `get` guarantees; an unknown hash is a TypeError in the code, and `markRateLimited` likewise.
- The tables that map models to families and key variants, and the other services' key orders: a request names its family and the variant of its model.
- Argon2id (section 3 of RFC 9106), HMAC (section 2 of RFC 2104) and SHA-256: signatures are the pair they sign, hashes are a fixed-width function, and the outcome of a proof-of-work hash is part of the event. Work factors and targets are therefore not modelled, nor the request schemas; their verdicts are flags of a submission.
- PowCaptcha.PowVerifier.Resume: says nothing of the user token that is issued or refreshed after a good hash, nor of the address slots that `verifyTokenRefreshable` may take.
- CacheTracker.Tracker.GenerateCacheFingerprint: the text of a part, with its canonical JSON, is an uninterpreted part; the stored list of prefix fingerprints on each entry is not kept.
- Firebase persistence, scheduled jobs and the admin interface. Family defaults are values, so the sharing of one default object between loaded users is not captured.
- The SQLite driver: a transaction commits as a whole or fails at a token and changes nothing, and JSON columns are the values they encode.
- Prompt schemas, tokenizers, image sizes and Jinja rendering. `AnthropicText` keeps the string cases; content parts other than text and images do not pass the schemas.
- Mistral.FixMistralPrompt: messages are values, so the change the code makes to the caller's first message and to merged arrays in place is not captured.
- Trimming uses the whitespace of ECMAScript; the case mapping of header names covers ASCII letters.
- ProxyRequest.RevertsRestoreExactlyWhen: changes made to the body object in place, as by `src/proxy/middleware/request/mutators/sign-aws-request.ts:36`, `src/proxy/middleware/request/mutators/add-azure-key.ts:29` and `src/proxy/queue.ts:350`, are recorded by no mutation and are not part of this model; a body is a value. Urls are absolute paths, for which the path is what precedes the query and the fragment.
- RateLimit.Limiter.IpLimiter: response headers other than the wait, and the choice of the key from token and address. The code never adds to its list of exempted requests.
- Migration steps change a schema of table and index names; rows, column definitions and SQLite's own sequence table are not part of it, and steps do not fail.
- LogQueue.Log.Start: a second start while a batch is in flight, which would run two flushes side by side; the backends and their initialisation.
- Delivery of a batch by a backend that stores part of it and then fails.
