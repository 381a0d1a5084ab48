# A verified model of fluxychat's hard cores

This project models, in Dafny, the parts of fluxychat whose behaviour is hard to see by
reading one function, and proves properties of them for all inputs, all runs and all
interleavings. Everything outside the code under study (the model provider, callbacks,
clocks, random values, HMAC, the key-value store's transport, other users) is a parameter,
so each theorem holds whatever those do.

`dafny verify dfyconfig.toml` checks the whole project.

## How it is organised

| files | what they model |
|---|---|
| `Common.dfy`, `Usage.dfy` | shared vocabulary; token usage (`normalizeUsage`, `addUsage`) |
| `AgentLoopModel.dfy`, `AgentLoop.dfy` | one run of `runAgentLoop`: first as a function of everything its callbacks answer, then the loop itself as a class, proved to compute that function |
| `AgentLoopTrace.dfy`, `AgentLoopCounts.dfy`, `AgentLoopBudget.dfy`, `AgentLoopResults.dfy`, `AgentLoopGates.dfy`, `AgentLoopFates.dfy`, `AgentLoopOutcome.dfy`, `AgentLoopStates.dfy`, `AgentLoopStop.dfy` | what every run keeps: the event protocol and the callback grammar, at-most-once execution and the budget, what becomes of each call and what its result reports, why a run throws, what the callbacks are told, the settings and approvals in effect, stopping and accumulation |
| `Generation.dfy` | the stream collector and its non-streaming twin |
| `LikePattern.dfy`, `Csv.dfy` | `escapeLike` against a matcher for SQL LIKE; `escapeCsvField` against a parser for RFC 4180 |
| `CacheKeys.dfy`, `WorkerCache.dfy`, `WorkerCacheTimes.dfy` | the versioned cache of the worker, over a store whose entries expire; when it hits, told from times alone |
| `Base64Url.dfy`, `JwtClaims.dfy`, `JwtCache.dfy` | the token codec, its two readers, and the service-token cache |
| `AssistantRoom.dfy` | list / create / list, for one call and for any number of interleaved calls |
| `ToolThread.dfy` | the keyed merge of tool cards and where the cards come from |
| `Tags.dfy`, `PopupText.dfy`, `TagStrip.dfy` | the two tag strippers |
| `CanvasSize.dfy`, `CanvasInstall.dfy` | the area clamp, the two patched setters, the CSS box; installing and releasing the guard |

Code that changes things in place (the agent loop, the stream target, the caches, the
canvas, the guard, the room server) is a class whose methods are proved equal to a step of
a specification function; loops stay loops, with invariants. The theorems are about those
functions, and so about the methods.

## Where the code does not do what one would expect

Each of these is a theorem below; the model follows the code.

- With a secret set, the approval id that is signed and the one that is verified come from
  two calls of `createApprovalId` (agent-loop.ts:214 and 220), so a call the user approved
  is rejected: it can only run if both ids get the same signature.
- `onStepEnd` is given the results of the earlier steps, none of its own step.
- If `onError` throws while `stream` handles a failure, the result promise never settles.
- The reasoning text of a model that cannot stream is returned but not streamed.
- `addUsage` is associative on normalised records but not on others: a total reported by
  one record can hide the counts of another. When the groupings agree is stated for all
  records, and for those of natural numbers, where only the total can differ, in plain cases.
- A CSV file whose last record is one empty field cannot be told from a final line break.
- A version entry that expires lets a later invalidation bring an old version back, and
  then a value older than the invalidation is served.
- `readJwtSub` decodes bytes as characters, so claims that are not ASCII come out garbled.
- A width between 0 and 1 is clamped to 0, not to 1; `maxCssBox` exceeds the area cap for
  scales above 4096/240, and its first `return` is never reached.
- The guard's originals come back only when a first handle makes the release that empties
  the count; otherwise, after the next install, never.
- The room server of this repository does not refuse a taken room id of the same project
  but answers with the room, so several calls can report `created: true`.
- The guard of 512 rounds leaves a `<` in longer inputs.

## Model

| member | source | states |
|---|---|---|
| AgentLoop.AgentRun.RunAgentLoop | packages/agent/src/agent-loop.ts:104-303 | the loop, with its settings, budget, switch and cleanup updated step by step, ends in exactly the outcome, state and event trace of the reference run |
| AgentLoop.AgentRun.Step | packages/agent/src/agent-loop.ts:130-294 | one round of the outer loop changes the run as the reference step does, including what it throws |
| AgentLoop.AgentRun.HandleToolCalls | packages/agent/src/agent-loop.ts:164-280 | the inner loop handles the calls in order, skips ids already handled, and stops at the first throw |
| AgentLoop.AgentRun.TryCallBody | packages/agent/src/agent-loop.ts:190-275 | the `try` block of one tool call: refine, resolve, ask, verify, execute, record, in that order |
| AgentLoop.AgentRun.ApprovalSwitch | packages/agent/src/agent-loop.ts:204-256 | the four-way approval switch gives the reference verdict and consumes the reference number of approval ids |
| AgentLoop.AgentRun.StopsNow | packages/agent/src/agent-loop.ts:285-285 | the stop conditions evaluated over the new state: the answer of the reference, or the error of the first that throws |
| AgentLoopTrace.RunKeepsProtocol | packages/agent/src/agent-loop.ts:104-303 | every run's event trace is legal for the protocol automaton; no timer or abort listener is left on any exit; the protocol is played to the end exactly when the run returned or `onEnd` itself threw |
| AgentLoopTrace.EndedMeansDone | packages/agent/src/agent-loop.ts:286-302 | `onEnd` comes at most once, and last |
| AgentLoopTrace.CallbacksFollowGrammar | packages/agent/src/agent-loop.ts:123-301 | the lifecycle callbacks of a run that returns are a sentence of: onStart, then per step onStepStart, matched tool start/end pairs with one id, onStepEnd, onStepFinish, then one onEnd; those of a run that throws are a prefix of one without onEnd |
| AgentLoopTrace.EverySpotCompletes | packages/agent/src/agent-loop.ts:123-301 | the grammar has no dead ends: every legal prefix can be completed |
| AgentLoopCounts.ExecutesAtMostOncePerCall | packages/agent/src/agent-loop.ts:164-169 | however a run ends, `execute` was called at most once per call id, at most `maxToolCalls` times, and only for recorded calls; results are in the order of the recorded calls |
| AgentLoopCounts.ResultsAreTruthful | packages/agent/src/agent-loop.ts:170-275 | a result reports an execution exactly when that call was executed; a denied, disallowed or unregistered call has an error, no output, and never reached `execute` |
| AgentLoopCounts.ResultsMatchCalls | packages/agent/src/agent-loop.ts:164-174 | on return the result ids are, in order, the distinct ids of all steps' calls by first appearance, and there are at most `maxToolCalls` |
| AgentLoopCounts.FirstToAskIsUnique | packages/agent/src/agent-loop.ts:164-166 | only one call of all steps is the first to ask for an id, even when ids repeat; the rows that speak of it pin down the call that is handled |
| AgentLoopBudget.BudgetErrorIff | packages/agent/src/agent-loop.ts:165-168 | a run throws the budget error exactly when it gets to a call that brings the distinct ids asked for above `maxToolCalls`; only then has it counted one call too many |
| AgentLoopBudget.NoReturnPastExcess | packages/agent/src/agent-loop.ts:165-168 | a run never returns past a step whose calls bring the distinct ids above `maxToolCalls` |
| AgentLoopResults.ResultsReportExecutions | packages/agent/src/agent-loop.ts:258-274 | however a run ends, a result that reports an execution carries the very value `execute` answered for the first call that asked for its id, or the message of the error it threw |
| AgentLoopFates.ResultsFollowTheTable | packages/agent/src/agent-loop.ts:170-275 | however a run ends, each result it recorded is the one a table gives the first call to ask for its id: not allowed; denied with the rule's reason; denied by the user; or what `execute` answered or threw, after an approval that lets it go ahead |
| AgentLoopFates.NotAllowedIff | packages/agent/src/agent-loop.ts:170-174 | a recorded result says that its tool is not allowed exactly when the call names a tool that is not registered, or a list is in effect at its step and lacks it |
| AgentLoopFates.NothingIsMissed | packages/agent/src/agent-loop.ts:170-266 | however a run ends, a recorded call of a permitted tool whose decision is approved (or comes to a go-ahead without signatures) and whose callbacks do not throw was executed |
| AgentLoopFates.ExecutesIffGoesAhead | packages/agent/src/agent-loop.ts:170-266 | in a run that returns, a call was executed exactly when its tool is permitted and the decision the rules make lets it go ahead |
| AgentLoopOutcome.ReturnsOnlyIfNothingThrows | packages/agent/src/agent-loop.ts:123-302 | a run that returns met nothing that throws: no callback, no condition, no abort, and every call of its steps lets the run go on |
| AgentLoopOutcome.ThrowsWhatSomethingThrew | packages/agent/src/agent-loop.ts:123-302 | a run that does not return throws exactly the error of a callback or condition, or the abort, budget, signature or refusal error of a call that meets its condition |
| AgentLoopStates.CallbacksAreToldTheState | packages/agent/src/agent-loop.ts:132-302 | in every run each state told to a callback or to `runStep`, and the one returned, has the step number, records, summed usage, results, runtime and provider options of the steps so far, and each text, reason and list of calls told is theirs |
| AgentLoopStates.LimitsMean | packages/agent/src/agent-loop.ts:105-106 | the limits default to 10 steps and 50 calls, and are rounded down to at least 1 and at least 0 |
| AgentLoopGates.LastDefinedIsLast | packages/agent/src/agent-loop.ts:143-149 | the setting in effect is the last override that was defined |
| AgentLoopGates.NothingDefined | packages/agent/src/agent-loop.ts:117-121 | with no override the setting in effect is the initial option |
| AgentLoopGates.ResolvesAsRulesSay | packages/agent/src/tool-approval.ts:37-69 | the decision is the fixed rule, or what the rule's or configuration's function answers, and not applicable where there is none or it answers nothing; it throws what the function throws |
| AgentLoopGates.RunsOnlyUnderSettingsInEffect | packages/agent/src/agent-loop.ts:170-252 | in every run each execution, decision, start, question to the user, legacy check, verification, timer and listener is what the tools, settings in effect, secret and callbacks make it, all for the very call that is the first to ask for its id |
| AgentLoopGates.ExecutionIsJustified | packages/agent/src/agent-loop.ts:204-260 | whatever executes was just approved by a rule, or by the user and (with a secret) verified, or by an unneeded or granted legacy approval where no rule applied |
| AgentLoopGates.SignedApprovalExecutesIffIdsCollide | packages/agent/src/agent-loop.ts:209-266 | in every run, a signed call that the user approves is verified next, and executes next exactly when the two different ids drawn for the call that is the first to ask for its id get the same signature |
| AgentLoopGates.AgreementIsDecided | packages/agent/src/agent-loop.ts:209-238 | those two ids get the same signature or they do not: no other call with the id can make both answers hold |
| AgentLoopGates.UserApprovalNeedsCollision | packages/agent/src/agent-loop.ts:229-266 | in every run with a secret, an execution on a user approval follows a verification of the same call of the same step, in which two different ids got the same signature |
| AgentLoopStop.StopsAtFirstStoppingStep | packages/agent/src/agent-loop.ts:150-302 | a run returns after exactly the first step whose stop test holds, else after `maxSteps`; step i is numbered i, the text is the concatenation and the usage the fold over the steps |
| AgentLoopStop.StopAfterStepsBounds | packages/agent/src/agent-loop.ts:99-100 | with `stopAfterSteps(k)` no run that returns has more than `maxSteps` steps, nor more than k unless it has one |
| AgentLoopStop.CheckConditionsMeans | packages/agent/src/agent-loop.ts:285-285 | the conditions evaluated one by one answer true exactly when some condition holds |
| AgentLoopStop.StepEndReportsEarlierResults | packages/agent/src/agent-loop.ts:132-283 | `onStepEnd` is told exactly the first results of the run, one for each distinct id that the earlier steps asked for |
| Usage.NormalizeFixesExactlyClean | packages/agent/src/ai-core.ts:125-137 | normalising yields a clean record and leaves exactly the clean ones alone |
| Usage.EmptyIsUnitIffClean | packages/agent/src/ai-core.ts:139-153 | the empty record is a unit for exactly the clean records |
| Usage.CleanUsageIsMonoid | packages/agent/src/ai-core.ts:139-153 | on clean records addition is an associative, commutative monoid that adds field by field |
| Usage.AddUsageIsAssociativeIff | packages/agent/src/ai-core.ts:139-153 | for all records, with fractional, negative and non-finite values, the two groupings agree exactly when, for each of the four counts, rounding and dropping come to the same in both orders, and the totals meet |
| Usage.FieldsAgreeIff | packages/agent/src/ai-core.ts:140-145 | for three values of one field, when rounding and dropping come to the same in both orders |
| Usage.AddCountsIsAssociativeIff | packages/agent/src/ai-core.ts:139-153 | for records of natural numbers the groupings agree exactly when the middle record has a total; or both outer ones do; or one outer one does and the other two report no counts but zeros; or none does and the outer ones add up to the same wherever that can show; only the total can differ |
| Usage.AddUsageIsNotAssociative | packages/agent/src/ai-core.ts:139-153 | an instance: three records whose groupings give totals 5 and 8 |
| Usage.FoldSplits | packages/agent/src/ai-core.ts:139-153 | the total of a run split in two is the sum of the totals of its parts, for clean reports |
| Generation.RunStream | packages/agent/src/generation.ts:100-156 | the call, with its read loop, synthetic parts, callbacks and catch block, has the reference outcome: parts, promise and stream end |
| Generation.ReadLoop | packages/agent/src/generation.ts:127-138 | the read loop forwards each part it folded, and ends where the source or the consumer ends |
| Generation.CollectMeans | packages/agent/src/generation.ts:131-136 | the fold gives the joined text deltas, joined reasoning deltas, summed usages and the last finish reason |
| Generation.ForwardsInOrder | packages/agent/src/generation.ts:108-146 | the parts enqueued for the consumer are a prefix of what the model offers, in order, and all of it whenever a result is delivered; the stream closes only with a result |
| Generation.StreamedResultIsFoldOfParts | packages/agent/src/generation.ts:121-145 | a streamed result is the fold of exactly the parts enqueued |
| Generation.PlainLooksStreamed | packages/agent/src/generation.ts:108-119 | folding the synthetic parts of a model that cannot stream gives the text, usage and finish reason returned; the whole result agrees exactly when there is no reasoning text |
| Generation.BodyThrowsIff | packages/agent/src/generation.ts:106-144 | the call fails before its result exactly when `onStart` or `onFinish` throws, calling or reading the model fails, or the consumer cancels before the last part on offer |
| Generation.ResultSettlesUnlessOnErrorThrows | packages/agent/src/generation.ts:143-152 | the result promise is fulfilled exactly when none of those happens; otherwise it is rejected, except that it stays pending for ever exactly when `onError` throws |
| Generation.EnqueuesExactly | packages/agent/src/generation.ts:107-138 | exactly the parts on offer are enqueued, up to a cancellation; none when `onStart` throws |
| Generation.FailsWithFirstError | packages/agent/src/generation.ts:147-151 | a call that fails early rejects its result with the first error there is, and ends the stream with it or with the error of `onError`, unless the consumer has cancelled |
| Generation.ClosesUnlessCancelled | packages/agent/src/generation.ts:143-146 | any other call closes its stream unless the consumer cancelled at the very end |
| Generation.PlainReturnsResponse | packages/agent/src/generation.ts:108-119 | a model that cannot stream returns its text, reasoning, normalised usage, reason and warnings, and offers start, text and finish in that order |
| Generation.StreamedExtras | packages/agent/src/generation.ts:143-143 | a streamed result has no warnings, and no reasoning rather than an empty one |
| LikePattern.EscapedMatchesOnlyItself | apps/worker/src/worker.js:725-727 | the escaped text is a well-formed pattern (section 8.5 of ISO/IEC 9075-2, escape `\`) that matches exactly the texts equal to it under the matcher's case folding |
| LikePattern.SearchFindsExactlySubstrings | apps/worker/src/worker.js:725-727 | `%` + escaped + `%` matches exactly the texts in which the term occurs, for any case folding |
| LikePattern.CaseSensitiveSearch | apps/worker/src/worker.js:725-727 | case-sensitively the two patterns match by equality and by substring |
| LikePattern.UnescapedSearchWorksIff | apps/worker/src/worker.js:725-727 | what the escaping is for: an unescaped term finds exactly the texts it occurs in if and only if it has no `%`, `_` or backslash |
| Csv.RoundTripIff | apps/worker/src/worker.js:858-869 | a printed file is parsed back to the same records, by a parser for section 2 of RFC 4180, exactly when every character has a place in that grammar and the file does not end, after a first record, with one empty field |
| Csv.ExportReadsBack | apps/worker/src/routes/rooms-list-export-http.js:214-240 | the seven-column message export reads back whenever every character has a place in the grammar, whatever its last row is |
| Csv.QuotesOnlyWhenNeeded | apps/worker/src/worker.js:863-869 | a field is printed as it is exactly when it has no comma, quote or line break, and in quotes otherwise |
| CacheKeys.SameFamilyIff | apps/worker/src/worker.js:182-186 | two keys share a version exactly when they are equal or are `rooms:P` or `rooms:P:...` keys of one project P |
| CacheKeys.VersionKeyMeans | apps/worker/src/worker.js:182-186 | the version of such a key is kept under `ver:rooms:P`, that of any other key under `ver:` and the key |
| CacheKeys.NumberOfDecimal | apps/worker/src/worker.js:218-218 | the printed version number reads back as itself |
| CacheKeys.EntryKeyInjective | apps/worker/src/worker.js:193-204 | entry keys tell both the key and the version apart |
| WorkerCache.Worker.GetCachedOrFetch | apps/worker/src/worker.js:188-211 | returns the cached value or the fetched one, fetching exactly on a miss, and leaves the store of the reference step, whatever the store fails at |
| WorkerCache.Worker.InvalidateCache | apps/worker/src/worker.js:213-222 | leaves the store of the reference step |
| WorkerCache.InvalidationHidesIffNotReuses | apps/worker/src/worker.js:213-222 | right after an invalidation some key of its family still hits exactly when the new version is one under which the family has a live entry |
| WorkerCache.CachedValuesAreFresh | apps/worker/src/worker.js:188-222 | in every run of non-overlapping calls in which no invalidation reuses a version, a value returned for a key was fetched for that key, by a lookup that missed, after the last effective invalidation of its family |
| WorkerCacheTimes.HitsIff | apps/worker/src/worker.js:188-222 | in every run of non-overlapping calls a lookup is answered from the store exactly when its read does not fail, the last invalidation of its family is less than 3600 seconds old, and the last call to store for the key under the version it set was less than its own time to live ago; told from the calls and their times alone |
| WorkerCacheTimes.HitsAreRecent | apps/worker/src/worker.js:203-207 | what a lookup returns without fetching was fetched for its key by a call whose time to live is not over |
| WorkerCacheTimes.VersionRead | apps/worker/src/worker.js:213-219 | the version read is one more than the version live at the last invalidation, or 2 if none was, for 3600 seconds, and none after that |
| WorkerCache.ReuseServesStale | apps/worker/src/worker.js:188-222 | after any run that ends in an invalidation that reuses a version, some lookup could come next whose answer nobody has fetched since |
| WorkerCache.AlwaysFreshIffNeverReuses | apps/worker/src/worker.js:188-222 | a run of non-overlapping calls is fresh for every lookup that could come next at any point of it exactly when none of its invalidations reuses a version |
| WorkerCache.NoLiveVersionNoHit | apps/worker/src/worker.js:191-197 | while no version of its family is live, every lookup fetches |
| WorkerCache.CacheIsTransparent | apps/worker/src/worker.js:188-222 | if every change of the source is invalidated, each lookup returns what a plain fetch would |
| WorkerCache.OutlivingVersionsAreNotReused | apps/worker/src/worker.js:213-222 | no version is reused as long as no version entry expires between invalidations of its family |
| WorkerCache.FreshWhileVersionsOutlive | apps/worker/src/worker.js:188-222 | hence freshness under that condition, which speaks only of times |
| WorkerCache.ExpiredVersionServesStaleValue | apps/worker/src/worker.js:219-219 | for every key a run of four calls in which an expired version entry makes the cache serve a value older than the last invalidation |
| Base64Url.PrintBase64Url | apps/ai-agent/src/handlers.js:481-492 | the loop and the replacements print the reference encoding |
| Base64Url.EncodePrintsUrlLetters | apps/ai-agent/src/handlers.js:490-491 | the three replacements leave exactly the url-safe letters of the sextets (section 5 of RFC 4648), no padding |
| Base64Url.DecodeInvertsEncode | apps/dashboard/lib/jwt-claims.ts:10-12 | for every byte sequence, unmapping and decoding gives the bytes back, with the padding restored or, as handlers.js:60 does, without |
| Base64Url.EncodeIsUnpaddedUrlSafe | apps/ai-agent/src/handlers.js:481-492 | only url-safe characters, length (4n + 2) / 3, never 1 modulo 4 |
| Base64Url.EncodeInjective | apps/ai-agent/src/handlers.js:481-492 | different bytes are printed differently |
| Base64Url.LettersAreTheAlphabet | apps/ai-agent/src/handlers.js:490-491 | the letters are those of table 2 of section 5 of RFC 4648 |
| Base64Url.SextetsCarryTheBits | apps/ai-agent/src/handlers.js:490-490 | each group of bytes, read as a number, is its sextets read as a number, with zero bits added to the last group |
| JwtClaims.CompactSplits | apps/ai-agent/src/handlers.js:460-475 | splitting a compact token (section 7.1 of RFC 7515) at the dots returns exactly its three segments |
| JwtClaims.ReadsClaimOfPayload | apps/dashboard/lib/jwt-claims.ts:4-32 | reading a claim of any printed token gives the claim of its payload, byte for byte; so does the reader in `getServiceJWT` |
| JwtClaims.ReadsExactlyStringMembers | apps/dashboard/lib/jwt-claims.ts:12-13 | a claim is read exactly when the payload parses to an object whose member it is and that member is a string |
| JwtClaims.NoDotNoClaim | apps/dashboard/lib/jwt-claims.ts:7-8 | a text without a dot gives no claim |
| JwtClaims.SpaceAroundIsIgnored | apps/dashboard/lib/jwt-claims.ts:5-5 | white space around a token makes no difference |
| JwtClaims.ReaderSeesSignedTextIffAscii | apps/dashboard/lib/jwt-claims.ts:10-12 | the reader parses the very text that was signed exactly when it is ASCII |
| JwtCache.TokenCache.GetServiceJWT | apps/ai-agent/src/handlers.js:38-67 | one call answers and updates the map as the reference step does, mint failures included |
| JwtCache.KnowsSignedExpiry | apps/ai-agent/src/handlers.js:57-64 | a minted token is its three segments with the project, expiry and issue time in the middle one; the expiry the cache stores is the one that was signed, which survives printing, splitting and decoding, or 3300 seconds after the call if the parser reads none |
| JwtCache.ReturnedTokensAreGood | apps/ai-agent/src/handlers.js:33-67 | in every run each returned token is one minted, by this call or an earlier one, over the claims of the project asked for, and its signed expiry is more than 300 seconds after the call; the clock may even go back between calls |
| JwtCache.ReturnedTokensNameTheProject | apps/ai-agent/src/handlers.js:452-475 | the dashboard's reader reads the project asked for from the `tid` claim of every returned token, fresh or cached |
| JwtCache.FailsIffMintFails | apps/ai-agent/src/handlers.js:45-56 | a call fails exactly when it has to mint and cannot, and then the cache is unchanged |
| JwtCache.TriesIffAllMintsAreOld | apps/ai-agent/src/handlers.js:39-43 | a call tries to mint exactly when every token minted for its project so far is at least 3000 seconds old, by its signature or, if the parser reads no expiry, by the call that minted it |
| JwtCache.MintsAreApart | apps/ai-agent/src/handlers.js:33-67 | two mints for one project are at least 3000 seconds apart |
| JwtCache.MintsAreFew | apps/ai-agent/src/handlers.js:33-67 | any stretch of n seconds of a run sees at most n / 3000 + 1 mints for a project, however many calls there are |
| AssistantRoom.PickIsFirstOfBestRank | apps/dashboard/lib/ensure-assistant-room.ts:119-127 | nothing is picked exactly when no room matches; else the first room of the best rank: id, legacy id, name, legacy name |
| AssistantRoom.RefusalSaysExists | apps/dashboard/lib/ensure-assistant-room.ts:24-31 | the server's refusal is recognised whatever trace id is appended to it |
| AssistantRoom.SaysExistsIffMentions | apps/dashboard/lib/ensure-assistant-room.ts:24-31 | exactly the messages that contain `room_id_already_exists`, `unique constraint` or `already exists`, in any ASCII case, are recognised |
| AssistantRoom.ThrowsIff | apps/dashboard/lib/ensure-assistant-room.ts:79-104 | in every interleaving a call throws an error exactly when one of its lists failed with it, or its post or the reply to it did and the error contains none of the three texts |
| AssistantRoom.Server.EnsureAssistantRoom | apps/dashboard/lib/ensure-assistant-room.ts:69-117 | a call that nothing interrupts ends as the reference says and leaves the reference rooms |
| AssistantRoom.EnsuredIsAlone | apps/dashboard/lib/ensure-assistant-room.ts:69-117 | that reference is the interleaved machine with one call in it |
| AssistantRoom.RunKeepsInvariant | apps/dashboard/lib/ensure-assistant-room.ts:69-117 | every step of every interleaving keeps: one matching room, made by one call's post, and each call where that allows it to be |
| AssistantRoom.AllReturnTheOneRoom | apps/dashboard/lib/ensure-assistant-room.ts:69-117 | starting with no match, no other room ever matches and all calls return the assistant room, whether the server refuses or adopts |
| AssistantRoom.GivesUpIff | apps/dashboard/lib/ensure-assistant-room.ts:100-116 | in every interleaving from no match, a call reaches the final throw exactly when its post failed on the way to the server with a message that says the room exists, and it then listed the rooms before any call's post had arrived |
| AssistantRoom.NobodyGivesUpUnlessMisled | apps/dashboard/lib/ensure-assistant-room.ts:100-116 | so none does when every message that says so comes from the server |
| AssistantRoom.MisledCallGivesUp | apps/dashboard/lib/ensure-assistant-room.ts:100-116 | an instance: a call on its own whose post fails that way reaches the final throw |
| AssistantRoom.ExactlyOneCreates | apps/dashboard/lib/ensure-assistant-room.ts:84-102 | against a server that refuses, only the call whose post made the room can report `created`; once any call has returned that call exists; it reports it exactly when its reply has arrived |
| AssistantRoom.AdoptingCreatesIffReplied | apps/worker/src/routes/rooms-mutations-http.js:202-247 | against this repository's server a call reports `created` exactly when the reply to its post arrived |
| AssistantRoom.TwoCallsCanBothCreate | apps/worker/src/routes/rooms-mutations-http.js:202-247 | a run in which two calls both report `created` |
| AssistantRoom.ExistingRoomIsFound | apps/dashboard/lib/ensure-assistant-room.ts:79-82 | when a room matches from the start no call posts, and each returns a matching room of the start or fails to list |
| ToolThread.MergeToolThreadEvents | apps/dashboard/lib/agent-tool-thread.ts:115-123 | the two loops over the map give one card per key, the last seen, in first-seen order of the concatenation |
| ToolThread.MergeKeepsLastOfEachKey | apps/dashboard/lib/agent-tool-thread.ts:115-123 | keys are unique and in first-seen order; each card is the last for its key, incoming before existing |
| ToolThread.MergeIsAssociative | apps/dashboard/lib/agent-tool-thread.ts:115-123 | merging is associative |
| ToolThread.GroupingDoesNotMatter | apps/dashboard/lib/agent-tool-thread.ts:115-123 | batches merged in any grouping give one merge of all their cards in order |
| ToolThread.RedeliveryIsAbsorbed | apps/dashboard/lib/agent-tool-thread.ts:115-123 | a batch delivered twice in a row changes nothing the second time |
| ToolThread.MergeChangesNothingIff | apps/dashboard/lib/agent-tool-thread.ts:115-123 | merging a batch changes nothing exactly when the last card of each of its keys is already shown |
| ToolThread.ToolCallsToThreadEvents | apps/dashboard/lib/agent-tool-thread.ts:78-113 | the push loop expands the calls into the reference cards |
| ToolThread.SameKeyIff | apps/dashboard/lib/agent-tool-thread.ts:85-107 | keys are equal exactly when the kinds are and run and call ids spell the same text; within a run that is the same call |
| ToolThread.RunsShareKeysIff | apps/dashboard/lib/agent-tool-thread.ts:85-107 | two runs can have a key in common exactly when they are the same or one run id is the other followed by a colon and more |
| ToolThread.ShowsIff | apps/dashboard/lib/agent-tool-thread.ts:78-113 | a card of a kind is shown for an id exactly when a call with that id asks for it |
| ToolThread.KeysUniqueIffIdsAre | apps/dashboard/lib/agent-tool-thread.ts:78-113 | the cards of a run have distinct keys exactly when its calls have distinct ids |
| ToolThread.OutcomeFollowsItsCall | apps/dashboard/lib/agent-tool-thread.ts:83-111 | a result or error card comes right after the card of its call |
| ToolThread.OneOutcomePerCall | apps/dashboard/lib/agent-tool-thread.ts:92-111 | with distinct ids a call has at most one result or error card |
| ToolThread.ExpandedCardsSettle | apps/dashboard/lib/agent-tool-thread.ts:78-123 | the cards of a run with distinct ids enter an empty thread unchanged, and again change nothing |
| ToolThread.CardsSayWhatCallsDo | apps/dashboard/lib/agent-tool-thread.ts:84-110 | each card carries the key, run, id, name and, for its kind alone, the arguments, preview or error of its call |
| ToolThread.CallCardsInOrder | apps/dashboard/lib/agent-tool-thread.ts:83-91 | the calls' own cards come one for each call, in their order |
| ToolThread.LiveCardSays | apps/dashboard/lib/agent-tool-thread.ts:34-76 | the card of a live event carries what the event says; other events have none |
| ToolThread.LiveCardIsReplacedIff | apps/dashboard/lib/agent-tool-thread.ts:34-76 | loading the persisted calls of a run replaces a live card exactly when a persisted call with its id has a card of that kind |
| Tags.RemoveTagsKeepsOutside | apps/dashboard/lib/sanitize-map-popup-text.ts:8-8 | one pass keeps exactly the characters that belong to no tag, that is to no `<` up to the first later `>` |
| Tags.OnePassLeavesNoTag | apps/dashboard/lib/sanitize-map-popup-text.ts:6-9 | after one pass no `<` is followed by a `>` |
| Tags.UntouchedIffNoTag | apps/dashboard/lib/sanitize-map-popup-text.ts:6-9 | the pass changes a text exactly when it has a tag |
| PopupText.SanitizeMapPopupText | apps/dashboard/lib/sanitize-map-popup-text.ts:2-11 | the loop to a fixpoint terminates after at most two passes with the single pass's text |
| PopupText.ShownIsShowable | apps/dashboard/lib/sanitize-map-popup-text.ts:2-11 | the output has no control characters, no `<` followed by `>`, at most 200 characters, and is a subsequence of the value |
| PopupText.ShownUnchangedIffShowable | apps/dashboard/lib/sanitize-map-popup-text.ts:2-11 | exactly the values with those properties are shown unchanged |
| PopupText.ShownTwice | apps/dashboard/lib/sanitize-map-popup-text.ts:2-11 | sanitizing is idempotent |
| PopupText.ControlsGoOthersStay | apps/dashboard/lib/sanitize-map-popup-text.ts:4-4 | wherever it stands, a character below U+0020 or U+007F goes and any other stays |
| PopupText.ShownIsFrontOfUntagged | apps/dashboard/lib/sanitize-map-popup-text.ts:4-10 | the text shown is the first 200 characters of what is outside the tags |
| TagStrip.StripTagsByIndex | apps/dashboard/lib/sanitize-html.ts:33-46 | the loop that starts over at each removal does at most 512 rounds of: drop the first `<`, with its span if it closes |
| TagStrip.LoopIsLimitedPass | apps/dashboard/lib/sanitize-html.ts:33-46 | for every input the loop is one left-to-right pass that stops dropping after 512 drops |
| TagStrip.GuardedLoopIsOnePassIff | apps/dashboard/lib/sanitize-html.ts:33-46 | it equals one left-to-right pass, and leaves no `<`, exactly when at most 512 `<` lie outside earlier spans |
| TagStrip.FewOpensAreStripped | apps/dashboard/lib/sanitize-html.ts:33-46 | in particular for inputs with at most 512 `<` |
| TagStrip.GuardIsTight | apps/dashboard/lib/sanitize-html.ts:35-35 | of 513 unclosed `<` one is left |
| TagStrip.PassIsTagsThenOpens | apps/dashboard/lib/sanitize-html.ts:36-43 | the single pass drops the tags the popup sanitizer drops, and then every `<` left |
| TagStrip.PassAddsNothing | apps/dashboard/lib/sanitize-html.ts:36-43 | what the single pass leaves is had from the input by leaving characters out |
| TagStrip.RoundsAddNothing | apps/dashboard/lib/sanitize-html.ts:33-46 | so is what any number of rounds leaves, even where the guard runs out |
| CanvasSize.FloorScaledIsExact | apps/dashboard/lib/canvas-max-size-guard.ts:23-25 | the integer square root used here is the floor of the product with the real scale |
| CanvasSize.ClampBackingStoreSize | apps/dashboard/lib/canvas-max-size-guard.ts:16-28 | computes the reference size, with one scale for both sides |
| CanvasSize.ClampMeans | apps/dashboard/lib/canvas-max-size-guard.ts:17-27 | with a and b the sides cut to whole pixels and to 8192: the size is a by b if their area is within the cap, else the width is the greatest n with n * n * b at most a times the cap, and the height likewise |
| CanvasSize.ClampIsScaled | apps/dashboard/lib/canvas-max-size-guard.ts:22-26 | in that case the sides are the floors of a and b times any real scale that brings their area to the cap |
| CanvasSize.ClampIsWithinCaps | apps/dashboard/lib/canvas-max-size-guard.ts:16-28 | every result is within both caps, and both sides are at least 1 exactly when neither value was in (0, 1) |
| CanvasSize.ClampIsIdentityIff | apps/dashboard/lib/canvas-max-size-guard.ts:16-28 | whole sizes are left alone exactly when both sides are in 1..8192 and the area is at most 16777216 |
| CanvasSize.ClampIsIdempotentIff | apps/dashboard/lib/canvas-max-size-guard.ts:16-28 | clamping twice is clamping once exactly when neither value was in (0, 1) |
| CanvasSize.Canvas.PatchedSetWidth | apps/dashboard/lib/canvas-max-size-guard.ts:49-57 | the patched width setter leaves the clamp of the value and the current height |
| CanvasSize.Canvas.PatchedSetHeight | apps/dashboard/lib/canvas-max-size-guard.ts:49-60 | the patched height setter leaves the clamp of the current width and the value |
| CanvasSize.AssignmentsKeepCaps | apps/dashboard/lib/canvas-max-size-guard.ts:40-63 | after any non-empty sequence of assignments, from any size, both caps hold, and both sides are at least 1 exactly when the last value was not in (0, 1) |
| CanvasSize.SetterIsPlainIff | apps/dashboard/lib/canvas-max-size-guard.ts:40-63 | on a drawable canvas within the caps an assigned whole number is taken as it is, and the other side kept, exactly when the canvas stays drawable within the caps |
| CanvasSize.BoxIsSquare | apps/dashboard/lib/canvas-max-size-guard.ts:30-38 | the box is always a square: of side max(240, floor(4096 / dpr)) for a finite dpr of at least 1, 240 for an infinite one, 4096 for any other; the first return is dead |
| CanvasSize.BoxFitsIff | apps/dashboard/lib/canvas-max-size-guard.ts:30-38 | box times scale respects both caps exactly when 240 times scale is at most 4096, and no larger square would |
| CanvasInstall.CanvasGuard.InstallGuard | apps/dashboard/lib/canvas-max-size-guard.ts:65-85 | an install counts, and if it is the first saves and patches what is in place |
| CanvasInstall.CanvasGuard.ReleaseGuard | apps/dashboard/lib/canvas-max-size-guard.ts:72-124 | a release counts down to 0 at the lowest; only a first handle restores, and only at 0 |
| CanvasInstall.PatchedWhileCounted | apps/dashboard/lib/canvas-max-size-guard.ts:65-125 | in every sequence of installs and releases the setters are guarded whenever the count is positive |
| CanvasInstall.OthersAreLeftAlone | apps/dashboard/lib/canvas-max-size-guard.ts:80-81 | a property without a getter or a setter is never touched |
| CanvasInstall.OriginalsBackIff | apps/dashboard/lib/canvas-max-size-guard.ts:65-125 | the originals are in place exactly when every install that patched was followed, before the next such install, by a call of a first handle that left the count at 0 |
| CanvasInstall.LastInFirstOutRestores | apps/dashboard/lib/canvas-max-size-guard.ts:65-125 | released last in, first out, the originals are back each time the count is 0, and exactly one patch is on otherwise |
| CanvasInstall.OtherOrderLeavesGuard | apps/dashboard/lib/canvas-max-size-guard.ts:71-75 | released in the other order the guard stays on with nothing counted |
| CanvasInstall.BuriedForever | apps/dashboard/lib/canvas-max-size-guard.ts:78-80 | two installs that patch with nothing that restores in between: the originals never come back, however the run goes on |

## Assumptions

- `CacheKeys.PlainKey`: callers' cache keys do not start with `ver:`, are not `ver`, and do
  not end in `:v` and digits; otherwise a key could be taken for another's entry.
- `WorkerCache.Sequential`: calls do not overlap, and the store is an atomic map with
  expiry, written by these calls only and empty at the start of a run.
- `JwtCache.ReadsExp`: the JSON parser reads back the expiry the JSON printer printed, or
  never reads one. `JwtCache.ReadsTid`: it reads back the project as the text member `tid`.
  `JwtCache.Timed`: a mint does not end before its call starts.
- `AssistantRoom.Enabled`: all calls are for one project, whose room id is one the worker
  accepts as valid; lists show all rooms; rooms are not deleted; other users create only
  rooms that do not match. The worker of this repository meets "lists show all rooms" only
  in part: `GET /rooms` answers from a cache of 30 seconds, and a plain member is shown
  only the rooms it belongs to (apps/worker/src/routes/rooms-list-export-http.js:62-76).

## Left out

- AgentLoop.AgentRun.RunAgentLoop: callbacks are given the live `steps` and `toolResults` arrays; a callback that changes them is not modelled. Infinite or NaN `maxSteps` and `maxToolCalls` are not modelled (NaN would run no step at all), nor tool names inherited from `Object.prototype`. The abort flag is read where the loop reads it; what a callback does on seeing it is its answer.
- AgentLoop.AgentRun.StopsNow: all conditions are started together by `Promise.all`; the model reports the error of the first one in the list that throws. What a custom condition may do besides answering is not modelled.
- AgentLoopTrace.RunKeepsProtocol: the timeout only signals the tool (agent-loop.ts:181), so time itself is not modelled, only that the timer and the listener are released.
- Generation.ForwardsInOrder: the parts are those enqueued; how many of them a consumer has read when the stream ends in an error or is cancelled, which drops the rest, is not modelled.
- Generation.RunStream: `retryAI`, `withTimeout`, `classifyAIError` and the release of the reader lock are not modelled; an error is the text it carries. `generate` on its own, `canonicalPrompt` and `modelRequest` are not modelled.
- WorkerCache.CachedValuesAreFresh: an invalidation that lands while `fetchFn` is running (worker.js:203 reads the version again) and a `fetchFn` that throws are not modelled; JSON texts stand for their values.
- LikePattern.EscapedMatchesOnlyItself: the limits SQLite puts on pattern length are not modelled, nor case folding beyond one character at a time.
- Csv.RoundTripIff: `String(value ?? "")` is taken as given; records are of texts.
- JwtCache.ReturnedTokensAreGood: calls are sequential; two calls that overlap can both mint. Looking up the secret, HMAC and the restart of the worker are not modelled.
- JwtClaims.ReadsClaimOfPayload: `JSON.parse` is a parameter; a lone surrogate in a text to be encoded is not modelled.
- Base64Url.DecodeInvertsEncode: texts that `base64url` did not print are decoded by the same `Atob`, but nothing is claimed of them.
- AssistantRoom.ExactlyOneCreates: adding the member to a found room (ensure-assistant-room.ts:106-108) changes no room and is not modelled, nor a room id that belongs to another project.
- AssistantRoom.RefusalSaysExists: lower-casing is that of ASCII letters.
- ToolThread.LiveCardIsReplacedIff: printing and shortening a live result (agent-tool-thread.ts:21-32) is a parameter; the mapping of cards to UI parts is not modelled.
- PopupText.SanitizeMapPopupText: `slice(0, 200)` counts characters here, UTF-16 units in the source, so a character outside the basic plane at the cut is not modelled.
- TagStrip.StripTagsByIndex: `stripNode`, the path with a DOM, is not modelled.
- CanvasSize.FloorScaledIsExact: arithmetic is exact; the rounding of floating point is not modelled.
- CanvasSize.BoxFitsIff: an infinite device pixel ratio gives a box of 240 by 240, of which no product is claimed.
- CanvasInstall.PatchedWhileCounted: the wrapper around `setTransform` is modelled as being in place, not what it does on a `DOMException`; without a window an install does nothing.
- The dashboard's network wrappers, routing, React components, catalogues, and the durable objects are not modelled.
