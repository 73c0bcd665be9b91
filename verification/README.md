# Cocola: state machines and transducers, verified

Cocola runs agents in sandboxes behind an LLM gateway. This project models the parts of it that carry state or rewrite
streams, and proves what they promise. Every file is one component, a module of the same name:

| file | what it models |
|---|---|
| `Prelude.dfy`, `Text.dfy` | option and result types; splitting, joining and tails of strings |
| `KnowledgeManifest.dfy`, `KnowledgeStaging.dfy`, `KnowledgeSizes.dfy` | what an Agent Knowledge manifest records, the files a revision must hold, and when sizes are right and the reader accepts |
| `KnowledgeFaults.dfy` | which files a revision gets under a choice of faults, compared with the run without |
| `KnowledgeRecords.dfy` | what a call records, keeps and needs, entry by entry, with and without faults |
| `KnowledgeSandbox.dfy`, `KnowledgeHost.dfy` | provisioning a revision: in the sandbox with a fault choice per command, and on the host |
| `ModelRegistry.dfy` | the leased, hot-swapped model registry |
| `RateLimit.dfy`, `Resilience.dfy` | token buckets; retry before the first byte |
| `StreamTypes.dfy`, `AnthropicBlocks.dfy`, `AnthropicCodec.dfy` | the normalized stream, block collection, and the two encoders |
| `ChatService.dfy` | one metered chat call, and many of them over one registry |
| `SessionMap.dfy` | the session index, as a dictionary and as a table |
| `ShimStream.dfy`, `ShimTurn.dfy`, `ShimProvider.dfy` | the in-sandbox shim: one exec, one turn, and the methods |
| `ShimContent.dfy` | what the shim's output comes to: events shown, errors reported, session ids, stated line by line |
| `SkillSets.dfy`, `SkillReconciler.dfy` | skill set reconciliation: what it computes, and the script with its faults |
| `SemVer.dfy`, `ReleaseGate.dfy` | release precedence, and the gate for new tags |
| `GitStatus.dfy` | the porcelain v2 status parser |
| `UiParts.dfy` | the reducer of the chat page |
| `RemoteCache.dfy` | the cache of remote Knowledge documents |
| `PreviewLog.dfy` | the two-segment preview log |

`dafny verify dfyconfig.toml` checks the whole project.

Objects the code updates in place are classes; their methods are proved against functions on values, and the lemmas
speak about those functions. Input and output, clocks, random names and faults are parameters. Text is characters, not
bytes. Hash functions are injective, and JSON parsing is a function nothing is known about. In a signature, `truth`
gives the content each Wiki version really has; it occurs in specifications only.

Where a promise does not hold of the code, the code is modelled as it is and the exact condition is proved:

- A readable last known good Knowledge revision does not save a call from raising: it raises exactly when a reference is
  invalid, one of the three preparing commands fails on a miss, or the final state write fails
  (`KnowledgeSandbox.Sandbox.Provision`, with a run in `KnowledgeSandbox.RaisesDespiteLastKnownGood`). With a manifest
  that cannot be read there is no last known good revision at all (`KnowledgeStaging.FailedReadIsColdMiss`).
- A kept Wiki file is not measured again: an update leaves true sizes if and only if no kept file's reference gives
  another size than the current manifest (`KnowledgeSizes.SizesStayTrueIff`, with a run in
  `KnowledgeSizes.RecordsAWrongSize`).
- The sandbox reader accepts the Wiki items of an updated revision if and only if every entry is readable: its path is
  not too long, its file name does not end in a space (`KnowledgeManifest.TrailingSpaceIsRejected`), and a temporarily
  unavailable entry's current Wiki item has a file (`KnowledgeSizes.ReaderAcceptsUpdateIff`).
- A consumer of a retried stream sees the last attempt alone if and only if every retried attempt would have opened with
  text or a message start (`Resilience.NoLeakIff`, with a run in `Resilience.LeakingRun`).
- The two encoders agree on the content if and only if the stream brings a block
  (`AnthropicCodec.StreamedAgreesWithCollected`, with a run in `AnthropicCodec.EmptyResponseDiffers`). They differ in
  model and output tokens by what a later message start brings (`AnthropicCodec.LaterStartDiffers`), and in the input
  tokens when any later event reports more than the first start
  (`AnthropicCodec.InputTokensAgreeIff`, `AnthropicCodec.InputTokensMayDiffer`).
  A tool block whose stop frame was dropped keeps the input it opened with (`AnthropicBlocks.DroppedStop`).
- A shim turn emits no `done` when the session index cannot be read: it raises (`ShimTurn.EveryTurnEndsInOneDone`).
- The session table and the dictionary answer alike if and only if nobody puts over a binding of the same owner and
  another runtime; the table then reports an owner mismatch, the dictionary a runtime mismatch
  (`SessionMap.StoresAreEquivalent`, with a run in `SessionMap.RuntimeConflictTellsApart`).
- Comparing prereleases is no order on identifiers with leading zeros, which parsing rejects
  (`SemVer.LeadingZerosBreakTheOrder`).
- A denied remote document stays in the cache if and only if the state file cannot be written, and is then returned by
  a later read that cannot fetch (`RemoteCache.DenialNeedsTheStateWrite`, `RemoteCache.DeniedContentIsReturned`, with a
  run in `RemoteCache.ServesDeniedContent`).

## Model

| member | source | states |
|---|---|---|
| `KnowledgeManifest.PlanSources` | apps/agent-runtime/cocola_agent_runtime/server.py:2461-2480 | the opening loop computes the plan (items, references, refresh set, stale flag), or none over an invalid Wiki reference |
| `KnowledgeManifest.PlanForIsThePlan` | apps/agent-runtime/cocola_agent_runtime/server.py:2286-2354 | the plan follows the item rule entry by entry, mentions no other id, is stale exactly when an item is, and fails exactly when some entry is invalid |
| `KnowledgeManifest.ByIdFinds` | apps/agent-runtime/cocola_agent_runtime/server.py:2456-2460 | with distinct ids the index finds every item |
| `KnowledgeManifest.PlanWellFormed` | apps/agent-runtime/cocola_agent_runtime/server.py:2286-2354 | from a well-formed manifest the next one has one item per entry, in order, and no two items share a file |
| `KnowledgeManifest.KeptWikiFileIsCurrent` | apps/agent-runtime/cocola_agent_runtime/server.py:2320-2354 | a Wiki file that is not refreshed has version, digest and path of the current manifest's item |
| `KnowledgeManifest.ReaderAcceptsPlanned` | deploy/sandbox-runtime/cocola_knowledge.py:194-215 | given the staged files, the sandbox reader accepts a planned Wiki item (named file, stripped path, its length, presence when ready) if and only if its entry is readable |
| `KnowledgeManifest.TrailingSpaceIsRejected` | deploy/sandbox-runtime/cocola_knowledge.py:195 | a file name ending in a space is staged under that name, and the reader rejects the item |
| `KnowledgeManifest.LongNames` | deploy/sandbox-runtime/cocola_knowledge.py:137-147 | a Wiki path is too long if and only if its file name, stripped, has more than 435 characters |
| `KnowledgeManifest.UnavailableTwiceIsRejected` | apps/agent-runtime/cocola_agent_runtime/server.py:2304-2314 | a Wiki source unavailable twice in a row reaches the rejected state |
| `KnowledgeStaging.PlanIsSourced` | apps/agent-runtime/cocola_agent_runtime/server.py:2517-2552 | for every planned Wiki file, the current copy or the checked download is the content of the recorded version |
| `KnowledgeStaging.StagedStep` | apps/agent-runtime/cocola_agent_runtime/server.py:2508-2557 | one successful staging step stages its item and disturbs no other item's file |
| `KnowledgeStaging.StageAllComplete` | apps/agent-runtime/cocola_agent_runtime/server.py:2508-2557 | staging that goes through leaves every listed Wiki file present with the content of its recorded version |
| `KnowledgeStaging.ExpectedMissIsComplete` | apps/agent-runtime/cocola_agent_runtime/server.py:2507-2631 | a fault-free update leaves a complete revision |
| `KnowledgeStaging.ExpectedIsRight` | apps/agent-runtime/cocola_agent_runtime/server.py:2448-2631 | the fault-free call: complete revision, manifest of the wanted agent and revision with one item per entry, stale flag right, last known good means untouched, raises only over an invalid reference or with no manifest |
| `KnowledgeStaging.FailedReadIsColdMiss` | apps/agent-runtime/cocola_agent_runtime/server.py:2371-2386 | when only the read of the manifest fails, outcome and new revision are those of an empty sandbox: updated, or raised with the current revision left alone; never last known good |
| `KnowledgeSizes.AllTaken` | apps/agent-runtime/cocola_agent_runtime/server.py:2508-2557 | after staging every listed Wiki file is the current copy or the checked download, as the plan says |
| `KnowledgeSizes.SizesStayTrueIff` | apps/agent-runtime/cocola_agent_runtime/server.py:2336-2354 | over a whole updating call, from a revision of true sizes: the new sizes are true if and only if no ready, unrefreshed Wiki entry carries a reference of another size |
| `KnowledgeSizes.RecordsAWrongSize` | apps/agent-runtime/cocola_agent_runtime/server.py:2633-2759 | a run that updates to a manifest with a size its file does not have |
| `KnowledgeSizes.ReaderAcceptsUpdateIff` | deploy/sandbox-runtime/cocola_knowledge.py:195-215 | over a whole updating call the reader accepts every Wiki item if and only if every entry is readable against the current revision |
| `KnowledgeFaults.StagingWithoutFaults` | apps/agent-runtime/cocola_agent_runtime/server.py:2508-2557 | staging whose commands meet no fault is the reference staging |
| `KnowledgeFaults.StagedUnderFaultsIsRight` | apps/agent-runtime/cocola_agent_runtime/server.py:2508-2557 | whatever fails, staging that goes through has every listed Wiki file with the content of its version |
| `KnowledgeFaults.FaultsOnlyLoseDocuments` | apps/agent-runtime/cocola_agent_runtime/server.py:2508-2557 | whatever fails, staging that goes through would go through without faults, with the same files except that documents may be missing |
| `KnowledgeFaults.PublishedUnderFaults` | apps/agent-runtime/cocola_agent_runtime/server.py:2507-2580 | the same of the files a planned call publishes |
| `KnowledgeRecords.NextManifestRecords` | apps/agent-runtime/cocola_agent_runtime/server.py:2286-2342 | the next manifest field by field, for every state and source type of an entry |
| `KnowledgeRecords.WhatIsDownloaded` | apps/agent-runtime/cocola_agent_runtime/server.py:2336-2354 | exactly the ready Wiki entries whose current item is not ready with the same version, digest and path are downloaded; the plan is stale exactly when a known entry is temporarily unavailable |
| `KnowledgeRecords.RaisesOverReferenceIff` | apps/agent-runtime/cocola_agent_runtime/server.py:2320-2332 | planning raises if and only if a ready Wiki entry has no reference, or one without key or version, of a size below 0 or above 100 MiB, or with a malformed digest |
| `KnowledgeRecords.HitIff` | apps/agent-runtime/cocola_agent_runtime/server.py:2484-2497 | a hit if and only if agent, revision and recorded items are those of the manifest read and nothing is to be downloaded; everything but an update leaves the revision alone, and falls back exactly when a manifest was read |
| `KnowledgeRecords.UpdateLeaves` | apps/agent-runtime/cocola_agent_runtime/server.py:2558-2571 | an update leaves the planned items under the agent, revision and time of the call, and the staged files |
| `KnowledgeRecords.StagedFilesAre` | apps/agent-runtime/cocola_agent_runtime/server.py:2508-2557 | after staging each file is the current copy, the checked download, or absent, exactly as its item says |
| `KnowledgeRecords.UpdatesIff` | apps/agent-runtime/cocola_agent_runtime/server.py:2484-2557 | without faults a call updates if and only if no reference is invalid, it does not hit, and every entry's file can be obtained |
| `KnowledgeRecords.UpdateKeepsFiles` | apps/agent-runtime/cocola_agent_runtime/server.py:2315-2318 | per entry: a ready document with a current file is carried over under its own name, unchanged; a stale item keeps its file; a Wiki file is the current one when nothing changed and the referenced object otherwise |
| `KnowledgeRecords.GoesThroughIff` | apps/agent-runtime/cocola_agent_runtime/server.py:2508-2557 | staging under faults goes through if and only if it would without, and every fault that hit it was a failed copy of a document |
| `KnowledgeRecords.PublishedDocuments` | apps/agent-runtime/cocola_agent_runtime/server.py:2517-2535 | under any faults, if the call publishes, a ready document with a current file is in the new revision, unchanged, if and only if one of its two copies met no fault |
| `KnowledgeSandbox.Sandbox.CopyKnowledgeFile` | apps/agent-runtime/cocola_agent_runtime/server.py:2399-2423 | copies one current file into the stage or leaves the stage as it was; an optional copy raises exactly when the executor does, any other whenever it fails |
| `KnowledgeSandbox.Sandbox.StageSources` | apps/agent-runtime/cocola_agent_runtime/server.py:2508-2557 | only the staging directory changes, and for every choice of faults the result is that of the staging function under faults |
| `KnowledgeSandbox.Sandbox.Commit` | apps/agent-runtime/cocola_agent_runtime/server.py:2558-2580 | after every command `current` is as before or names the complete new revision |
| `KnowledgeSandbox.Sandbox.Abandon` | apps/agent-runtime/cocola_agent_runtime/server.py:2608-2615 | the handler never touches `current`; with no further fault it leaves no stage, link or unused revision |
| `KnowledgeSandbox.Sandbox.StageAndCommit` | apps/agent-runtime/cocola_agent_runtime/server.py:2507-2580 | the try block switches `current` if and only if staging and the four commit commands go through, to exactly the staged files; until then every state is safe |
| `KnowledgeSandbox.Sandbox.Publish` | apps/agent-runtime/cocola_agent_runtime/server.py:2507-2615 | `current` is switched if and only if staging and the four commit commands go through, to exactly the staged files; no clean-up fault changes that |
| `KnowledgeSandbox.OutcomeIs` | apps/agent-runtime/cocola_agent_runtime/server.py:2484-2631 | when a call hits, updates, falls back and raises, one by one |
| `KnowledgeSandbox.Sandbox.Provision` | apps/agent-runtime/cocola_agent_runtime/server.py:2448-2631 | for every choice of faults every intermediate state is safe, and the faults settle the rest: whether `current` is switched and to which files, and whether the call hits, updates, falls back or raises; the state file matches; if no command after the read of the manifest fails, outcome and revision are the reference definition's for the manifest read, or for none |
| `KnowledgeSandbox.RaisesDespiteLastKnownGood` | apps/agent-runtime/cocola_agent_runtime/server.py:2504-2506 | a run that raises although a readable last known good revision exists |
| `KnowledgeHost.HostWorkspace.Provision` | apps/agent-runtime/cocola_agent_runtime/server.py:2633-2759 | the host variant reaches outcome, manifest and files of the same reference definition, and records revision and staleness |
| `ModelRegistry.StepKeepsInv` | apps/llm-gateway/cocola_llm_gateway/db_registry.py:45-94 | every acquire, refresh, release and close keeps: reference counts are the leases, and every built registry has exactly one owner (cached, retired with a lease, handed out for closing, or closed) |
| `ModelRegistry.InvIsSafe` | apps/llm-gateway/cocola_llm_gateway/db_registry.py:45-94 | then no leased registry is closed or about to be, none is closed twice, a retired one is leased, and with all leases back only the cached one and the fallback are open |
| `ModelRegistry.EveryRunIsSafe` | apps/llm-gateway/cocola_llm_gateway/db_registry.py:45-94 | that, over every interleaving from a fresh source |
| `ModelRegistry.LeaseKeepsOpen` | apps/llm-gateway/cocola_llm_gateway/db_registry.py:45-70 | through any steps of any clients a registry stays leased, open and out of the closing queue while fewer of its leases were returned than were out |
| `ModelRegistry.AcquireLeases` | apps/llm-gateway/cocola_llm_gateway/db_registry.py:48-94 | which registry an acquire leases: none but the cached one within the time to live; the newly built one, or the fallback without rows, when a due refresh brings a new configuration; otherwise the one cached before, or the fallback |
| `ModelRegistry.CachedIsTheLastTaken` | apps/llm-gateway/cocola_llm_gateway/db_registry.py:72-94 | over any run the registry in use is that of the last new configuration loaded and built |
| `ModelRegistry.FallbackUntilTaken` | apps/llm-gateway/cocola_llm_gateway/db_registry.py:72-94 | until one is taken up the fallback serves |
| `ModelRegistry.PostgresRegistrySource.Refresh` | apps/llm-gateway/cocola_llm_gateway/db_registry.py:72-94 | keeps the last known good registry on failure, swaps otherwise, and hands out or retires the previous one |
| `ModelRegistry.PostgresRegistrySource.AcquireLocked` | apps/llm-gateway/cocola_llm_gateway/db_registry.py:48-53 | the part under the lock is one acquire step and keeps the invariant |
| `ModelRegistry.PostgresRegistrySource.ReleaseLocked` | apps/llm-gateway/cocola_llm_gateway/db_registry.py:60-68 | the part under the lock is one release step, keeps the invariant, and hands a retired registry out with its last lease |
| `ModelRegistry.PostgresRegistrySource.AcquireRegistry` | apps/llm-gateway/cocola_llm_gateway/db_registry.py:45-56 | the leased registry, case by case in the refresh due, the load and the build; it is neither closed nor about to be, and what the swap handed out is closed |
| `ModelRegistry.PostgresRegistrySource.ReleaseRegistry` | apps/llm-gateway/cocola_llm_gateway/db_registry.py:58-70 | gives the lease back and closes the registry, once, exactly when it was retired and this was its last lease |
| `RateLimit.StaysInRange` | apps/llm-gateway/cocola_llm_gateway/middleware.py:59-67 | tokens stay between 0 and the capacity over any run |
| `RateLimit.WindowBound` | apps/llm-gateway/cocola_llm_gateway/middleware.py:59-67 | in every window of calls at most capacity plus rate times its length is granted |
| `RateLimit.GrantedIff` | apps/llm-gateway/cocola_llm_gateway/middleware.py:59-67 | a call is granted if and only if every window of calls up to it, and the initial tokens, leave room for one more |
| `RateLimit.IdleCallerIsGranted` | apps/llm-gateway/cocola_llm_gateway/middleware.py:59-67 | a caller idle for 1/rate is granted |
| `RateLimit.KeysAreIndependent` | apps/llm-gateway/cocola_llm_gateway/middleware.py:77-85 | each key's decisions are those of a lone bucket run on that key's own calls |
| `RateLimit.KeyWindowBound` | apps/llm-gateway/cocola_llm_gateway/middleware.py:70-85 | the window bound for each key of a fresh limiter, whatever other keys do |
| `RateLimit.TokenBucket.Allow` | apps/llm-gateway/cocola_llm_gateway/middleware.py:59-67 | one call of the bucket: new level and decision |
| `RateLimit.RateLimiter.Allow` | apps/llm-gateway/cocola_llm_gateway/middleware.py:77-85 | one call of the limiter: only the key's bucket changes; without a positive rate, the default, everything is admitted |
| `StreamTypes.UsageMeter.Merge` | apps/llm-gateway/cocola_llm_gateway/types.py:121-125 | prompt counts by maximum, completion counts by sum |
| `StreamTypes.MaxPromptIsTheMaximum` | apps/llm-gateway/cocola_llm_gateway/types.py:121-125 | the metered prompt count covers every reported one and is one of them, or 0 |
| `StreamTypes.SumsAppend` | apps/llm-gateway/cocola_llm_gateway/types.py:121-125 | completion counts add up over a stream |
| `Resilience.ChatStream` | apps/llm-gateway/cocola_llm_gateway/middleware.py:103-154 | the stream is what given-up attempts had emitted, then the last attempt with its error; it ends, and opens as many attempts as stated |
| `Resilience.OneAttemptReachesTheConsumer` | apps/llm-gateway/cocola_llm_gateway/middleware.py:103-154 | if attempts open with content, the consumer sees exactly one attempt in order and at most one error, last; at most max_retries + 1 attempts |
| `Resilience.NoLeakIff` | apps/llm-gateway/cocola_llm_gateway/middleware.py:115-134 | the consumer sees the last attempt and nothing else if and only if every retried attempt kept the contract of opening with text or a message start; so the hypothesis of the row above is necessary |
| `Resilience.LeakingRun` | apps/llm-gateway/cocola_llm_gateway/middleware.py:115-134 | a run in which a passthrough event of the given-up attempt stands in front of the answer |
| `Resilience.NoRetryAfterContent` | apps/llm-gateway/cocola_llm_gateway/middleware.py:118-126 | no attempt that emitted text or a message start is retried |
| `Resilience.LastAttemptIs` | apps/llm-gateway/cocola_llm_gateway/middleware.py:103-154 | the retry rule both ways: the attempt that counts is the first that did not fail with an error event or a retryable upstream failure before any content, or the last allowed |
| `Resilience.FinalIs` | apps/llm-gateway/cocola_llm_gateway/middleware.py:103-154 | what the last attempt brings: its events up to its first error event, or all and the error its ending stands for |
| `AnthropicBlocks.IndicesAreIndependent` | apps/llm-gateway/cocola_llm_gateway/anthropic_codec.py:366-433 | however block indices are interleaved, each ends as if it had been alone |
| `AnthropicBlocks.OneBlockRebuilt` | apps/llm-gateway/cocola_llm_gateway/anthropic_codec.py:366-433 | a block sent as one start, any deltas and one stop is rebuilt |
| `AnthropicBlocks.ListedInStartOrder` | apps/llm-gateway/cocola_llm_gateway/anthropic_codec.py:392-433 | blocks are listed in the order of their start frames |
| `AnthropicBlocks.HasContentIff` | apps/llm-gateway/cocola_llm_gateway/anthropic_codec.py:392-456 | there is content if and only if some frame starts a block or is a text, thinking or signature delta |
| `AnthropicBlocks.CollectingRebuilds` | apps/llm-gateway/cocola_llm_gateway/anthropic_codec.py:366-460 | collecting rebuilds the original blocks, each once, in start order, for every cut into deltas and every interleaving |
| `AnthropicBlocks.DroppedStop` | apps/llm-gateway/cocola_llm_gateway/anthropic_codec.py:450-455 | without its stop frame a tool block gets its streamed input if and only if it opened without one, or with that one |
| `AnthropicCodec.StreamToAnthropicSse` | apps/llm-gateway/cocola_llm_gateway/anthropic_codec.py:199-335 | the encoder's output in closed form, errors and mixed modes included |
| `AnthropicCodec.CollectToAnthropicResponse` | apps/llm-gateway/cocola_llm_gateway/anthropic_codec.py:343-474 | the collector's response or raised error in closed form |
| `AnthropicCodec.FoldsAppend` | apps/llm-gateway/cocola_llm_gateway/anthropic_codec.py:199-335 | texts, passthrough frames and completion counts of a stream are those of its parts put together |
| `AnthropicCodec.LastOnesCount` | apps/llm-gateway/cocola_llm_gateway/anthropic_codec.py:279-292 | the stop reason and the collected model are the last ones given, or end_turn and the fallback |
| `AnthropicCodec.FirstOneOpens` | apps/llm-gateway/cocola_llm_gateway/anthropic_codec.py:216-250 | message_start comes from the first event that is not a message delta, with its model and usage, or the fallback and zero |
| `AnthropicCodec.RelayedOneMore` | apps/llm-gateway/cocola_llm_gateway/anthropic_codec.py:216-275 | each event relays its own frame, or its text as a delta of one text block the first text opens; nothing else, modes mixed or not |
| `AnthropicCodec.CollectedIs` | apps/llm-gateway/cocola_llm_gateway/anthropic_codec.py:446-474 | with any passthrough event the collected content is its blocks, or one empty text block, and no text; otherwise all text in one block |
| `AnthropicCodec.SseShape` | apps/llm-gateway/cocola_llm_gateway/anthropic_codec.py:199-335 | one message_start first, content frames, one message_delta, one message_stop last; the content is the upstream's frames verbatim or one text block |
| `AnthropicCodec.BlocksAreBalanced` | apps/llm-gateway/cocola_llm_gateway/anthropic_codec.py:199-335 | blocks balance in text mode, and in passthrough mode if and only if the upstream's do |
| `AnthropicCodec.FailingStream` | apps/llm-gateway/cocola_llm_gateway/anthropic_codec.py:294-311 | a failing stream: after all relayed content exactly one error frame with code and message, then the text block closed and message_stop, no message_delta; the collected response is an error too |
| `AnthropicCodec.FailsAlike` | apps/llm-gateway/cocola_llm_gateway/anthropic_codec.py:294-311 | both outputs fail together, if and only if an error event comes before any message stop |
| `AnthropicCodec.StreamedAgreesWithCollected` | apps/llm-gateway/cocola_llm_gateway/anthropic_codec.py:199-474 | decoding the stream gives the collected id and stop reason; the content if and only if the stream brings a block; and tokens, both ways, and model with the exact contribution of later events |
| `AnthropicCodec.InputTokensAgreeIff` | apps/llm-gateway/cocola_llm_gateway/anthropic_codec.py:176-192 | input tokens agree if and only if the start's count is not negative and no later event reports a larger one |
| `AnthropicCodec.InputTokensMayDiffer` | apps/llm-gateway/cocola_llm_gateway/anthropic_codec.py:176-192 | a stream with one message start whose input tokens are 0 streamed and 10 collected |
| `AnthropicCodec.EmptyResponseDiffers` | apps/llm-gateway/cocola_llm_gateway/anthropic_codec.py:446-474 | a stream of one message start: no block streamed, one empty text block collected |
| `AnthropicCodec.LaterStartDiffers` | apps/llm-gateway/cocola_llm_gateway/anthropic_codec.py:199-474 | a stream with two message starts whose outputs differ in model and output tokens |
| `AnthropicCodec.SingleStartAgrees` | apps/llm-gateway/cocola_llm_gateway/anthropic_codec.py:199-474 | with one message start: id, output tokens, model and stop reason agree, content if and only if the stream brings a block, and input tokens if and only if no message delta reports more than the start |
| `ChatService.GatewayService.Deliver` | apps/llm-gateway/cocola_llm_gateway/service.py:320-349 | what the consumer pulled, and the record of exactly that: metered tokens, error status if and only if an error was delivered |
| `ChatService.GatewayService.ChatStream` | apps/llm-gateway/cocola_llm_gateway/service.py:293-373 | the events delivered, every effect on registry, ledger, quota and traces in order, and exactly when it raises |
| `ChatService.LeaseReturnedOnce` | apps/llm-gateway/cocola_llm_gateway/service.py:307-373 | success, upstream error, failed resolve, failed commit, early stop: the lease is returned exactly once and last; past resolve there is exactly one record |
| `ChatService.RecordIs` | apps/llm-gateway/cocola_llm_gateway/service.py:329-349 | the record has the metered tokens and the last error's text, up to 500 characters |
| `ChatService.EffectsAre` | apps/llm-gateway/cocola_llm_gateway/service.py:350-373 | record, quota commit of all tokens and trace, in this order, between lease and return; a failed commit prevents the trace |
| `ChatService.BilledIsReported` | apps/llm-gateway/cocola_llm_gateway/service.py:329-349 | with the collector as consumer the recorded tokens are those of the response, and an error is recorded if and only if collecting raises |
| `ChatService.ActKeepsAccount` | apps/llm-gateway/cocola_llm_gateway/service.py:308-373 | every step of every call keeps the source's leases equal to what the calls hold |
| `ChatService.CallsAreSafe` | apps/llm-gateway/cocola_llm_gateway/service.py:308-373 | any number of interleaved calls: no registry is closed under a call, and once all leases are back every other registry was closed exactly once |
| `SessionMap.MemorySessionMap.Put` | apps/agent-runtime/cocola_agent_runtime/session_map.py:110-134 | binds, or refuses with the stated reason and changes nothing |
| `SessionMap.PostgresSessionMap.Put` | apps/agent-runtime/cocola_agent_runtime/session_map.py:228-249 | the upsert statement's effect on the table, refused when no row comes back |
| `SessionMap.UpsertIs` | apps/agent-runtime/cocola_agent_runtime/session_map.py:162-175 | the upsert changes one session's row, exactly when there is none or owner and runtime match, and keeps keys unique |
| `SessionMap.DeleteIs` | apps/agent-runtime/cocola_agent_runtime/session_map.py:177-178 | the delete removes one session's row exactly when owner (and runtime, if given) match |
| `SessionMap.StoresAreEquivalent` | apps/agent-runtime/cocola_agent_runtime/session_map.py:78-258 | on every sequence of operations by any users both stores answer each one alike, except a put over a binding of the same owner and another runtime, which both refuse with different messages; so all answers agree if and only if there is no such put |
| `SessionMap.RuntimeConflictTellsApart` | apps/agent-runtime/cocola_agent_runtime/session_map.py:119-134 | two puts after which the dictionary says runtime mismatch and the table owner mismatch |
| `SessionMap.PutIsFound` | apps/agent-runtime/cocola_agent_runtime/session_map.py:90-134 | a put is refused exactly without owner or runtime or over another's binding; otherwise its owner, and nobody else, then finds it |
| `SessionMap.AnswersAre` | apps/agent-runtime/cocola_agent_runtime/session_map.py:78-144 | what a get returns, and the messages of refused puts in the order they are tried |
| `SessionMap.OnlyTheOwner` | apps/agent-runtime/cocola_agent_runtime/session_map.py:110-144 | one operation removes a binding if and only if it is its owner's delete; otherwise it leaves what its owner put for this runtime, or what was there |
| `SessionMap.BindingsKeepTheirOwner` | apps/agent-runtime/cocola_agent_runtime/session_map.py:110-144 | over any run, until its owner removes it, a binding is exactly what its owner put last for its runtime, or still the first |
| `SessionMap.RowsKeepTheirOwner` | apps/agent-runtime/cocola_agent_runtime/session_map.py:228-258 | the same equality for the table's row, after any history |
| `ShimStream.LinesAppend` | apps/agent-runtime/cocola_agent_runtime/shim_provider.py:654-660 | reassembling two pieces of output one after the other is reassembling them at once |
| `ShimStream.LinesAreSplit` | apps/agent-runtime/cocola_agent_runtime/shim_provider.py:654-660 | reassembly handles exactly the newline-separated fields of the output, in order and once, and keeps the last one back |
| `ShimStream.ChunkLaws` | apps/agent-runtime/cocola_agent_runtime/shim_provider.py:618-660 | at any point, with any other chunks around: cuts in output or diagnostics do not matter, nor where diagnostics stand |
| `ShimStream.ChunksAre` | apps/agent-runtime/cocola_agent_runtime/shim_provider.py:618-660 | any interleaving is one piece of output, and the tail kept is the last 2000 characters of all diagnostics |
| `ShimStream.OnlyTheOutputMatters` | apps/agent-runtime/cocola_agent_runtime/shim_provider.py:598-718 | with the same output and exit, or cut off by the same exception: same relayed events, same errors up to diagnostics quoted on exit, same session id, same index |
| `ShimStream.RelayDependsOnOutputOnly` | apps/agent-runtime/cocola_agent_runtime/shim_provider.py:598-718 | for any scripts, exec errors and exits anywhere: relayed events, session id and index depend only on the joined output and on whether an exception cuts it off |
| `ShimProvider.InSandboxShimProvider.HandleLine` | apps/agent-runtime/cocola_agent_runtime/shim_provider.py:657-693 | one line: session id, early index write, relayed events and kept errors |
| `ShimProvider.InSandboxShimProvider.StreamAttempt` | apps/agent-runtime/cocola_agent_runtime/shim_provider.py:583-718 | the chunk loop, exit and transport errors and the unterminated rest amount to the attempt's outcome function |
| `ShimProvider.InSandboxShimProvider.Query` | apps/agent-runtime/cocola_agent_runtime/shim_provider.py:440-572 | the events, the index and whether it raises are those of the turn's answer function |
| `ShimTurn.AttemptIsSound` | apps/agent-runtime/cocola_agent_runtime/shim_provider.py:583-718 | every attempt relays no error, keeps only errors, knows whether content was relayed, and its early write is in the index; other bindings are untouched |
| `ShimTurn.EveryTurnEndsInOneDone` | apps/agent-runtime/cocola_agent_runtime/shim_provider.py:440-572 | exactly one `done`, last, all errors after all relayed events, at most two attempts; it raises, with nothing emitted, if and only if the index cannot be read |
| `ShimTurn.RetryOnlyBeforeContent` | apps/agent-runtime/cocola_agent_runtime/shim_provider.py:480-520 | a second attempt if and only if a stored session was reported missing, resuming is not required, and nothing but start-up status was relayed; the first one's errors are then not shown |
| `ShimTurn.DoneMeansSaved` | apps/agent-runtime/cocola_agent_runtime/shim_provider.py:545-581 | if `done` carries an id and no failed write was reported, the index binds this conversation to it for this user, runtime and sandbox; no other owner's binding is touched |
| `ShimContent.ScriptIsShown` | apps/agent-runtime/cocola_agent_runtime/shim_provider.py:618-718 | conservation: over any script the events relayed are, in order, one per content, result, environment and accepted line, with kind and payload as parsed |
| `ShimContent.ChunkReports` | apps/agent-runtime/cocola_agent_runtime/shim_provider.py:618-693 | the errors one more chunk records: those of the lines it completes, an exec error, or a failing exit not reported before, with the last 2000 characters of diagnostics |
| `ShimContent.EndReports` | apps/agent-runtime/cocola_agent_runtime/shim_provider.py:695-718 | an exception is recorded last and drops the unterminated rest, whose errors are recorded otherwise |
| `ShimContent.SessionIdIs` | apps/agent-runtime/cocola_agent_runtime/shim_provider.py:664-685 | the session id is the last one the lines carry; of the rest only a start or done line's counts |
| `ShimContent.StartIsSavedAtOnce` | apps/agent-runtime/cocola_agent_runtime/shim_provider.py:664-678 | a start line's id is in the index at once, unless the storage refuses or another owner or runtime is bound |
| `ShimContent.OneExecAnswers` | apps/agent-runtime/cocola_agent_runtime/shim_provider.py:521-572 | the answer of a turn without a retry: relayed events, errors, a failed index write, `done` |
| `ShimContent.ErrorsShown` | apps/agent-runtime/cocola_agent_runtime/shim_provider.py:521-540 | errors are shown as recorded, but a lost session asks for a new conversation when resuming is required |
| `ShimContent.NoExecAnswers` | apps/agent-runtime/cocola_agent_runtime/shim_provider.py:440-470 | without a sandbox, or with nothing to resume where required, no exec is made and one error is answered |
| `ShimContent.TurnIsShown` | apps/agent-runtime/cocola_agent_runtime/shim_provider.py:440-572 | the answer shows every shown line of the exec, and of the second one after those of the first |
| `SkillReconciler.SkillDescriptors` | apps/agent-runtime/cocola_agent_runtime/skill_reconciler.py:341-371 | succeeds if and only if all ids are valid and distinct, with the sorted descriptors |
| `SkillReconciler.BuildSkillBatchArchive` | apps/agent-runtime/cocola_agent_runtime/skill_reconciler.py:374-458 | reuses exactly the unchanged Skills, carries the payloads of the others, and fails when one cannot be had |
| `SkillSets.ReuseIsRight` | apps/agent-runtime/cocola_agent_runtime/skill_reconciler.py:206-210 | the directory a reused Skill is copied from is what its descriptor means |
| `SkillSets.SelectionRoundTrips` | apps/agent-runtime/cocola_agent_runtime/skill_reconciler.py:221-239 | asking for the ids of the selected platform items gets exactly those items |
| `SkillSets.SelectedIs` | apps/agent-runtime/cocola_agent_runtime/server.py:2062-2070 | the platform items taken are those of the inventory in its order, of a custom set only those whose id starts with cocola- |
| `SkillSets.WantedIs` | apps/agent-runtime/cocola_agent_runtime/skill_reconciler.py:186-250 | a wanted set holds every Skill's own content and a link per platform item, under their ids, and nothing else |
| `SkillSets.IncrementalIsFromScratch` | apps/agent-runtime/cocola_agent_runtime/skill_reconciler.py:186-250 | against any right installed set, reconciling gives exactly the directories and digests of a from-scratch build, and a right set again |
| `SkillSets.SucceedsLikeFromScratch` | apps/agent-runtime/cocola_agent_runtime/skill_reconciler.py:374-458 | whenever a build from scratch succeeds, the incremental one does, with the same set |
| `SkillSets.SucceedsIff` | apps/agent-runtime/cocola_agent_runtime/skill_reconciler.py:186-250 | over an unchanged image reconciling succeeds if and only if every Skill is installed unchanged or has a payload with SKILL.md |
| `SkillSets.ScratchMayFail` | apps/agent-runtime/cocola_agent_runtime/skill_reconciler.py:386-413 | the converse fails: a Skill whose payload is gone is still reused |
| `SkillSets.HitMeansDone` | apps/agent-runtime/cocola_agent_runtime/server.py:2073-2077 | equal digests mean the installed set already is the wanted one |
| `SkillReconciler.SkillStore.Swap` | apps/agent-runtime/cocola_agent_runtime/skill_reconciler.py:252-258 | `current` names the stage, or what it named before |
| `SkillReconciler.SkillStore.Reconcile` | apps/agent-runtime/cocola_agent_runtime/skill_reconciler.py:186-271 | under any faults every moment shows the old or the new set; it installs what it would without faults or leaves `current` alone, keeps the previous set, and without faults gives up only when it must and leaves no other set |
| `SkillReconciler.SkillStore.Sync` | apps/agent-runtime/cocola_agent_runtime/server.py:2037-2102 | success, hit or not, means exactly the from-scratch set is installed: each platform item linked and reported if and only if the set is not custom or its id starts with cocola-, in inventory order, each Skill with its content, nothing else; failure leaves the old set or the wanted one; without faults it succeeds if and only if ids are valid and distinct and every Skill can be had |
| `SemVer.ComparePrerelease` | scripts/validate_release_version.py:42-57 | on identifiers without leading zeros: negative, zero, positive exactly when section 11 of Semantic Versioning 2.0.0 says lower, equal, higher |
| `SemVer.LessThan` | scripts/validate_release_version.py:30-39 | `<` of versions is that precedence |
| `SemVer.ValueInjective` | scripts/validate_release_version.py:50-51 | numerals without leading zeros are determined by their value |
| `SemVer.ValueIsShortlex` | scripts/validate_release_version.py:50-51 | numerals without leading zeros compare by length, then by character code |
| `SemVer.CoreLessIsNumeric` | scripts/validate_release_version.py:33-34 | cores compare like numbers with the digits major, minor and patch, in any base above them |
| `SemVer.SectionElevenExamples` | scripts/validate_release_version.py:30-57 | both example chains of section 11 are increasing |
| `SemVer.CompareIsSection11` | scripts/validate_release_version.py:42-57 | the comparison function agrees with the declarative statement |
| `SemVer.LeadingZerosBreakTheOrder` | scripts/validate_release_version.py:50-51 | with leading zeros each of two identifiers counts as above the other |
| `SemVer.PrecedenceIsTotal` | scripts/validate_release_version.py:18-39 | of two versions exactly one of lower, equal, higher holds |
| `SemVer.PrecedenceIsTransitive` | scripts/validate_release_version.py:18-39 | precedence is transitive |
| `ReleaseGate.ParsedIsWritten` | scripts/validate_release_version.py:60-81 | a tag that parses has at most 128 characters and is written from its own fields, of allowed characters |
| `ReleaseGate.OneTagPerVersion` | scripts/validate_release_version.py:60-81 | tags with equal versions are equal |
| `ReleaseGate.EveryVersionParses` | scripts/validate_release_version.py:12-81 | every version within the length limit, written out, parses back to itself |
| `ReleaseGate.OthersAre` | scripts/validate_release_version.py:87-95 | the versions compared with are exactly those of the other tags that, stripped, parse |
| `ReleaseGate.ValidateReleaseTag` | scripts/validate_release_version.py:84-122 | accepts a tag if and only if it parses and follows every other existing one that parses: releases above all releases, prereleases of a core above all releases and all prereleases of that core |
| `ReleaseGate.ReleasesAdvance` | scripts/validate_release_version.py:84-122 | over any run of accepted new tags releases strictly increase, no prerelease appears at or below a released core, prereleases of one core strictly increase |
| `GitStatus.ParsePorcelainV2` | apps/agent-runtime/cocola_agent_runtime/project_git.py:283-332 | the loop computes branch, changes, cut and truncation mark of the records, or raises on a short status |
| `GitStatus.ItemParses` | apps/agent-runtime/cocola_agent_runtime/project_git.py:289-330 | one printed entry is read back whatever follows; an old path is taken verbatim even when it looks like a record |
| `GitStatus.ParsingInvertsPrinting` | apps/agent-runtime/cocola_agent_runtime/project_git.py:283-332 | every list of headers and entries with NUL-free paths comes back in order with path, old path, status and area, cut to max_paths, truncated if and only if something was cut |
| `GitStatus.OthersAreSkipped` | apps/agent-runtime/cocola_agent_runtime/project_git.py:289-321 | records of another kind, and entries with too few fields, are skipped |
| `GitStatus.ShortStatusRaises` | apps/agent-runtime/cocola_agent_runtime/project_git.py:322-323 | an entry of any kind with a status of fewer than two characters raises, whatever surrounds it |
| `UiParts.EventKeeps` | apps/web/app/runtime-provider.tsx:1217-1280 | every event keeps one part per call and key, one memory recall and no adjoining texts, and edits at most one part or adds one at an end |
| `UiParts.EventSays` | apps/web/app/runtime-provider.tsx:939-979 | conservation of text: an event adds exactly the text it brings, an unmatched tool result included, at the end; no other event changes any text |
| `UiParts.UseDoes` | apps/web/app/runtime-provider.tsx:984-1008 | a tool use names its call and adds it if need be; other parts, output and result stay |
| `UiParts.DoneDoes` | apps/web/app/runtime-provider.tsx:949-980 | a tool result goes to its call with one of five outcomes; everything else stays |
| `UiParts.OutputDoes` | apps/web/app/runtime-provider.tsx:1010-1036 | output goes to its call, the last 65536 characters kept; an unknown call is added with it |
| `UiParts.TextDoes` | apps/web/app/runtime-provider.tsx:939-946 | text goes on in the last part of its kind or starts one; nothing before it changes |
| `UiParts.OthersDo` | apps/web/app/runtime-provider.tsx:1038-1215 | files are added at the end; an update replaces the first part of its kind and key, or is added, an environment in front |
| `UiParts.TextMayBeSplit` | apps/web/app/runtime-provider.tsx:939-946 | splitting a text chunk changes nothing |
| `UiParts.OutputMayBeSplit` | apps/web/app/runtime-provider.tsx:1010-1036 | splitting a nonempty output chunk changes nothing, known call or not |
| `UiParts.EveryMessageIsTidy` | apps/web/app/runtime-provider.tsx:1217-1280 | over every event sequence the message stays so, and the output kept for a call is the last 65536 characters of all its output |
| `UiParts.PartsStay` | apps/web/app/runtime-provider.tsx:1217-1280 | between any two points of a run parts are neither removed nor reordered |
| `RemoteCache.RemoteDocuments.RemoteDocument` | deploy/sandbox-runtime/cocola_knowledge.py:458-564 | the path with its stale flag or the error, and the cache and state afterwards, any write failing |
| `RemoteCache.WithoutAFetch` | deploy/sandbox-runtime/cocola_knowledge.py:458-497 | when nothing is fetched, and what is returned then: 900 seconds of freshness, 60 of back-off, the deadline |
| `RemoteCache.AfterAFetch` | deploy/sandbox-runtime/cocola_knowledge.py:498-564 | what each result of a fetch does to file and state file, any write failing, and what is returned |
| `RemoteCache.NotStaleIsRecent` | deploy/sandbox-runtime/cocola_knowledge.py:476-478 | over every run of reads and revision swaps, from any cache, a document returned as not stale was fetched by this call or less than 900 seconds ago, and was in the cache at the start or brought by a fetch of that source |
| `RemoteCache.StoredIsServed` | deploy/sandbox-runtime/cocola_knowledge.py:476-478 | a stored document is served again, not stale and without a fetch, within 900 seconds |
| `RemoteCache.NoContentAfterRevocation` | deploy/sandbox-runtime/cocola_knowledge.py:538-564 | after a permission, not-found, connector or too-large error no content is returned for that source before a later fetch, over any reads and swaps |
| `RemoteCache.DenialNeedsTheStateWrite` | deploy/sandbox-runtime/cocola_knowledge.py:557-560 | a denied document stays cached if and only if the state write fails |
| `RemoteCache.DeniedContentIsReturned` | deploy/sandbox-runtime/cocola_knowledge.py:484-560 | a later read that cannot fetch returns the denied content if and only if that state write failed |
| `RemoteCache.ServesDeniedContent` | deploy/sandbox-runtime/cocola_knowledge.py:484-560 | such a run |
| `PreviewLog.PreviewFiles.RunPreviewProcess` | deploy/sandbox-runtime/cocola_sandbox.py:870-905 | the log after every chunk |
| `PreviewLog.LogHoldsTheEnd` | deploy/sandbox-runtime/cocola_sandbox.py:887-904 | rotated then live is the end of all output, each at most 1 MiB, together all of it or more than 1 MiB |
| `PreviewLog.EveryMomentHoldsTheEnd` | deploy/sandbox-runtime/cocola_sandbox.py:887-904 | the same after every chunk of a run |
| `PreviewLog.ShortOutputIsWhole` | deploy/sandbox-runtime/cocola_sandbox.py:887-904 | output of at most 1 MiB is kept whole, unrotated |
| `PreviewLog.OversizedChunkLeavesAGap` | deploy/sandbox-runtime/cocola_sandbox.py:891-893 | why the bound on reads matters: a clipped chunk after other output would leave a gap |

## Left out

- Transport and storage: gRPC, HTTP, connection pools, subprocesses, object stores, ZIP and JSON encoding, cryptography.
- Async cancellation: a cancel between taking a lease and closing the swapped registry, or inside a clean-up, is outside the models; `aclose` of the registry source closes live registries by design.
- Concurrent writers of one sandbox: provisioning and skill reconciliation are modelled one call at a time; the reconcile lock and another turn writing the session index in between are not.
- Lost acknowledgements: a command that took effect but reported failure; in the Knowledge model a failed command has no effect.
- KnowledgeHost.HostWorkspace.Provision: no file operation fails, and the moment between its two renames, when there is no `current`, is not an observable state.
- RateLimit.RateLimiter.Allow: the bucket's two clock readings on a new key are one; a new bucket is full either way.
- Resilience.ChatStream: attempts are finite scripts and sleeping is not modelled; the timeout text leaves out the number of seconds.
- AnthropicCodec.StreamToAnthropicSse: frames are values, not bytes; responses mixing text deltas with passthrough frames are covered by the closed forms, but only unmixed ones by the agreement lemmas, as the codec declares the modes exclusive.
- ChatService.GatewayService.ChatStream: the time to the first token, prices and trace failures.
- SessionMap.PostgresSessionMap.Put: NULL columns, `updated_at` and columns of other features.
- ShimStream.OnlyTheOutputMatters: exec error chunks are not among its scripts, because where one stands among the output decides the order of the recorded errors; `ShimStream.RelayDependsOnOutputOnly` and `ShimStream.ChunkLaws` cover them. Decoding of UTF-8 across exec frames is not modelled.
- ShimProvider.InSandboxShimProvider.Query: request building, environment variables, and a consumer that stops early.
- SkillReconciler.SkillStore.Reconcile: `kind` and `member` of a manifest item are not kept in an installed manifest, since nothing reads them there; unpacking is part of fetching a payload.
- SkillReconciler.BuildSkillBatchArchive: the two passes over the descriptors are one, and downloads run in order.
- ReleaseGate.ValidateReleaseTag: the wording of messages.
- GitStatus.ParsePorcelainV2: undecodable bytes; the sibling parser of commit changes, which is simpler.
- UiParts.EventKeeps: the refusal and normalization of event data, and the later status updates of plan and question parts.
- RemoteCache.RemoteDocuments.RemoteDocument: the arguments of the Feishu command line, the classification of its errors, paths, and a swap of revisions during a read.
- KnowledgeManifest.ReaderAcceptsPlanned: the reader's checks of ids, node ids, labels and URLs, which parsing the context has already made with the same rules (server.py:425-469 and 489-492), and its check of links; paths are structured values that cannot leave a revision.
- PreviewLog.PreviewFiles.RunPreviewProcess: the process itself, and reading the log back as lines.
- Easy members: pagination, the prompt cache, route lookup, lock-file fields, the rest of the turn pipeline, the web pages.
