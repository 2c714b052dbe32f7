# Verified model of the account, billing and relay service

A Dafny model of the stateful core of the service: the WebSocket relay hub, the usage
query cache, the token usage store and its upload endpoint, the LLM protocol adapters and
key pool, VIP grants, refresh sessions, the entitlement backfill and the DSN lexer. Each
component is a state machine or an algorithm in the form its source has, and each main
property is proved for every input, every run or every interleaving.

`dafny verify dfyconfig.toml` checks the whole project.

| file | models |
|---|---|
| `Base.dfy`, `Ordering.dfy` | sequences, subsequences and sorted listings used by the rest |
| `RelayConn.dfy` | one connection: outbound buffer, writer and close protocol as interleaved steps; class `WsConn` |
| `RelayClose.dfy` | when the closed frame gets out, whatever late senders do |
| `RelayHub.dfy`, `RelayPresence.dfy`, `RelayService.dfy` | rooms, registration, routing and shutdown; what every run keeps; class `Hub` |
| `RelayShutdown.dfy` | what a member receives at shutdown |
| `UsageCache.dfy`, `UsageCacheOrder.dfy`, `CanonicalQuery.dfy` | the single-flight response cache with generations and sweeps; which bucket orders keep it fresh; its key |
| `TokenUsage.dfy`, `TokenDeletion.dfy` | usage buckets, watermarks and tombstones; which deletions are remembered |
| `TokenUsageRepo.dfy`, `TokenIngest.dfy` | class `UsageTokenRepo`; upload validation |
| `AnthropicTurns.dfy`, `StreamTranslation.dfy` | request and stream translation |
| `UsageMeter.dfy`, `UsageCuts.dfy`, `UsageAgreement.dfy` | usage metering, class `UsageTracker`; exactly when the cuts into reads matter, and when the batch form agrees |
| `KeyPool.dfy` | key rotation, cooldown and retry; class `KeyPool` |
| `VipGrants.dfy`, `VipRaces.dfy` | concurrent VIP transactions statement by statement, class `AdminUsersService`; lost races |
| `Sessions.dfy`, `SessionRaces.dfy` | rotation chains and their revocation, class `SessionRepo`; revocation beside other transactions |
| `Backfill.dfy` | dry and real backfill passes; class `Pass` |
| `Dsn.dfy` | the keyword DSN lexer and its printer |

## Where the code falls short of what one would expect

Each entry names the lemma with the failing runs or inputs and the lemma with the exact
condition under which the property holds.

- The closed frame is best effort: a sender that passed its check early can take the freed
  slot (`RelayConn.ClosedFrameCanBeLost`). It is safe exactly when the buffer has room for
  every late sender (`RelayClose.ClosedFrameIsSafeExactly`).
- Non-positive limits leave empty rooms behind (`RelayPresence.ZeroLimitLeavesARoom`), and
  nothing else does (`RelayPresence.EmptyRoomsComeFromZeroLimits`).
- A time bucket seen again after another one lets a generation be forgotten, and a pre-write
  answer is replayed (`UsageCacheOrder.ReturningBucketIsStale`). An order of buckets is safe
  exactly when none returns (`UsageCacheOrder.OrderIsSafeExactly`).
- Deleting all usage of a user or device removes rows at or above the mark too, and forgets
  them: they can be uploaded again at once (`TokenDeletion.DeletionAtTheMarkIsForgotten`,
  `TokenDeletion.DeletedRowReturnsExactly`).
- An upload validated before a retention sweep and written after it can restore a deleted
  bucket (`TokenDeletion.LateUploadBringsDeletedUsageBack`); at any point a key is accepted
  exactly when it is neither cleared nor revoked (`TokenDeletion.KeyReturnsExactly`).
- The comment on `usageTrackLineCap` says scanning resumes at the next newline after an
  overlong line; the code resumes at the next read (`UsageMeter.OverlongLineDependsOnTheCut`).
  The cuts matter exactly when an overlong line hides a usage event beyond the cap
  (`UsageCuts.CutsMatterExactly`).
- The tracker only decodes lines holding the text `"usage"`; usage under another spelling of
  the key is read by the batch form alone (`UsageMeter.OtherSpellingIsMissed`). The two agree
  on every stretch of a stream exactly when each event that carries usage holds that text and
  fits the cap (`UsageMeter.AgreeExactly`), and for every cut into reads exactly when no
  overlong event hides usage besides (`UsageAgreement.AlwaysAgreeExactly`).
- An in-process caller that passes an empty list of parts gets an empty user turn
  (`AnthropicTurns.EmptyPartsOpenEmptyTurn`), exactly when a whole run carries no block
  (`AnthropicTurns.EmptyTurnsExactly`); a decoded request never does
  (`AnthropicTurns.DecodedTurnsAreNotEmpty`).
- With other calls in between, a retry can get the rejected key back early
  (`KeyPools.RejectedKeyCanReturn`), exactly when all keys are cooled and none is better
  (`KeyPools.CooledKeyReturnsExactly`).
- A keyed VIP grant that loses to a grant under another key ends in an internal error
  instead of a replay or a rejection (`VipRaces.LostGrantCanFail`, `VipRaces.LostGrantEnds`).
- Rotating an unknown session into its own id links it to itself
  (`Sessions.SelfRotationLoops`, `Sessions.LinksKeptExactly`).
- A rotation that commits while a chain is being revoked leaves its new session live
  (`SessionRaces.RotationEscapes`, `SessionRaces.LateRowsEscapeExactly`).
- The dry run counts one account per candidate, the real run one per user
  (`Backfill.RepeatedUserIsOvercounted`, `Backfill.AccountsPredictedExactly`).

## Model

| member | source | states |
|---|---|---|
| RelayConn.EveryInterleavingIsDisciplined | internal/relay/conn.go:355-520 | For every interleaving of senders, closers, the writer and a reader that meets the end of its stream: the buffer stays within capacity, what is written is an in-order subsequence of what was queued, nothing leaves the buffer unwritten before closing begins, at most two frames are lost after, and a closed frame is queued at most once and is the last frame written |
| RelayConn.NothingFollowsClosed | internal/relay/conn.go:355-389 | Once a closed frame has been written, no action of any party writes another frame |
| RelayConn.CloseIsItsSteps | internal/relay/conn.go:463-484 | The one-call form of initiateClose is the composition of the steps that other goroutines can interleave with |
| RelayConn.CloseIsQueuedLast | internal/relay/conn.go:463-484 | With no late sender, initiateClose puts its closed frame last in the buffer, giving up the oldest frame exactly when the buffer is full; on a buffer without capacity it changes nothing and ends |
| RelayClose.ClosedFrameIsSafeExactly | internal/relay/conn.go:463-484 | When a close begins, every interleaving with at most L late senders queues the closed frame if and only if the capacity is positive and the frames already queued plus L do not exceed it |
| RelayClose.BeginCloseBegins | internal/relay/conn.go:463-484 | Whenever a close begins on a disciplined connection, no closed frame was ever queued and the buffer is within capacity, as the rows on the close protocol ask |
| RelayClose.ClosedFrameIsQueuedIffRoom | internal/relay/conn.go:463-484 | In a single run the closed frame is queued if and only if one of the two pushes of the close protocol met room |
| RelayClose.OneSenderTooMany | internal/relay/conn.go:463-484 | One late sender more than there is room for suffices, from any state in which a close begins, for an interleaving that loses the closed frame |
| RelayClose.StaysOnCourse | internal/relay/conn.go:463-484 | Where the close protocol can stand after any interleaving that leaves room for the late senders |
| RelayConn.ClosedFrameCanBeLost | internal/relay/conn.go:463-484 | A run from a fresh connection in which a late sender refills the freed slot and the closed frame is never sent |
| RelayConn.DrainDelivers | internal/relay/conn.go:355-389 | A running writer whose writes succeed delivers the buffer front to back, up to and including a closed frame, whether or not a close has begun |
| RelayConn.EnqueueKeepsDiscipline | internal/relay/conn.go:435-458 | Enqueue, including its slow-consumer close, keeps the outbound discipline |
| RelayConn.WsConn.Enqueue | internal/relay/conn.go:435-458 | Queues the frame, drops it when closing, or starts a slow-consumer close when the buffer is full |
| RelayConn.WsConn.InitiateClose | internal/relay/conn.go:463-484 | First close wins; the closed frame is queued, after one drop-oldest retry |
| RelayConn.WsConn.Writer | internal/relay/conn.go:355-389 | The writer loop writes frames in order until a closed frame or a failed write, and nothing after |
| RelayPresence.EveryMemberConverges | internal/relay/hub.go:90-245 | Presence convergence: in every run, for every stored member that is not closing and has its hello_ok, replaying every presence frame queued since its Register on top of the hello_ok table gives exactly the devices (ids and names) in its room now |
| RelayPresence.EveryDrainedPeerKnowsTheTruth | internal/relay/conn.go:189-205 | The same of the frames actually written, once the buffer is drained |
| RelayPresence.EveryRunKeepsInv | internal/relay/hub.go:90-309 | With positive limits every reachable state stores each member under its own user, role and id, respects the limits, has no empty room, has gauges equal to the member counts, keeps every connection disciplined and every member converged |
| RelayPresence.NextKeepsInv | internal/relay/hub.go:90-309 | Each single event keeps that invariant |
| RelayPresence.TellConverges | internal/relay/hub.go:141-162 | Telling a converged member about one change leaves it converged on the changed room |
| RelayPresence.NewcomerConverges | internal/relay/hub.go:141-162 | The join snapshot leaves the newcomer converged on the room it joined |
| RelayPresence.GreetingIsTruth | internal/relay/hub.go:232-245 | The device table read for hello_ok is exactly the room at that moment |
| RelayPresence.RefusedRegisterChangesNoRoom | internal/relay/hub.go:90-140 | A Register refused by shutdown or limits changes no room and no gauge |
| RelayPresence.ZeroLimitLeavesARoom | internal/relay/hub.go:90-140 | On a fresh hub with limits of zero the first Register, of any connection, leaves an empty room that breaks the room invariant |
| RelayPresence.EmptyRoomsComeFromZeroLimits | internal/relay/hub.go:90-140 | A refused Register leaves an empty room behind if and only if the hub is accepting, the user had no room and the limit for the role is not positive |
| RelayPresence.LateUnregisterIsSilent | internal/relay/hub.go:184-228 | A replaced connection that unregisters late changes nothing and tells nobody |
| RelayPresence.UsersAreIsolated | internal/relay/hub.go:90-309 | No event of one user changes another user's room or anything queued for its connections |
| RelayPresence.RouteReachesExactly | internal/relay/hub.go:261-309 | Who receives what for every routed frame: all clients of the room, exactly the named device of the same room, the sender alone with an undeliverable notice, or nobody when a device sender has no room |
| RelayPresence.RouteStaysInRoom | internal/relay/hub.go:261-309 | Every recipient of a routed frame has the sender's user |
| RelayService.Hub.Register | internal/relay/hub.go:90-178 | The locked registration with its deferred kick: new hub state, replaced connection and refusal are those of the specification step |
| RelayService.Hub.Unregister | internal/relay/hub.go:184-228 | The new hub state is that of the specification step, offline frames included |
| RelayService.Hub.Greet | internal/relay/conn.go:189-205 | hello_ok carries the device table read after Register |
| RelayService.Hub.OnlineTable | internal/relay/hub.go:232-245 | Lists the room's devices in id order, with their names |
| RelayService.Hub.RouteApp | internal/relay/hub.go:261-309 | Routing does to every outbound buffer what the specification step does |
| RelayService.Hub.Shutdown | internal/relay/hub.go:318-363 | Refuses new connections; every stored member gets an offline frame per other device of its room and is then closed; nobody else is touched |
| RelayService.OfflinesAreTheOthers | internal/relay/hub.go:318-363 | The offline frames queued for a member at shutdown name every other device of its room exactly once and no other device |
| RelayService.ShutdownDeliversIffRoom | internal/relay/hub.go:318-363 | A member keeps its queue, then gets all offline frames and last the closed frame, if and only if its buffer has room for all of them |
| RelayShutdown.ShutdownIsDelivered | internal/relay/hub.go:318-363 | A stored member with room, once its writes have succeeded, has written the offline frame of every other device of its room and last its closed frame, whatever writer steps and other senders come between the broadcasts and after them |
| RelayShutdown.ClosedComesLast | internal/relay/hub.go:318-363 | A connection with room for every frame handed to it before its closed frame writes them all in order and the closed frame last |
| RelayService.OfflinesAreNotClosed | internal/relay/hub.go:318-363 | The frames queued before the close at shutdown hold no closed frame, as the delivery results ask of them |
| RelayService.AdmitThenAnnounce | internal/relay/hub.go:90-178 | Doing the map updates first and the announcements after, as the code does, is the single registration step |
| Ordering.ListingIsUnique | internal/relay/hub.go:232-245 | A sorted listing of a set of ids is unique, so the device table is determined by the room |
| UsageCache.EveryAnswerIsFresh | internal/middleware/usage_query_cache.go:119-169 | Freshness: if bucket numbers seen under the lock never decrease, every replayed or joined answer comes from a leader of the same user, route, query and bucket that became leader after the user's last successful write; a replayed one is that leader's stored 200 |
| UsageCache.OrderlyAnswerIsFresh | internal/middleware/usage_query_cache.go:119-169 | The same whenever no bucket is seen under the lock again after another one |
| UsageCache.OrderedBucketsNeverReturn | internal/middleware/usage_query_cache.go:338-357 | Buckets that never decrease never return |
| UsageCacheOrder.OrderIsSafeExactly | internal/middleware/usage_query_cache.go:338-357 | An order of buckets keeps every answer of every run fresh if and only if no bucket returns in it |
| UsageCacheOrder.ReturningBucketIsStale | internal/middleware/usage_query_cache.go:338-357 | For every order in which a bucket returns there is a run visiting the buckets in that order in which a read from after a write is answered from before it |
| UsageCache.EveryOrderlyRunIsFresh | internal/middleware/usage_query_cache.go:338-357 | The invariant behind it survives sweeps that recycle generations and leaders that finish late |
| UsageCache.EveryRunIsCoherent | internal/middleware/usage_query_cache.go:119-357 | Every reachable state: stored entries, running flights and leaders agree, whatever the bucket order |
| UsageCache.OneLeaderPerKey | internal/middleware/usage_query_cache.go:146-165 | In every run two unfinished flights have different keys |
| UsageCache.WaitersNeverExecute | internal/middleware/usage_query_cache.go:220-252 | A read starts a downstream execution exactly when it is the leader, and only if no unfinished flight has its key |
| UsageCache.OutcomeIsFinal | internal/middleware/usage_query_cache.go:220-288 | A published outcome never changes, so every waiter reads the same one |
| UsageCache.UsageQueryCache.Handle | internal/middleware/usage_query_cache.go:119-169 | Bypass, replay, join or lead, with the state change of the specification step |
| UsageCache.UsageQueryCache.FinishLeader | internal/middleware/usage_query_cache.go:256-288 | Publishes the outcome, releases the flight and stores a 200 under its own key |
| UsageCache.UsageQueryCache.InvalidateOnSuccess | internal/middleware/usage_query_cache.go:184-205 | A successful write bumps the user's generation and drops nothing else |
| UsageCache.UsageQueryCache.SweepLocked | internal/middleware/usage_query_cache.go:338-357 | When the bucket changes, drops the entries of older buckets and the generation of every user without a surviving entry; running flights do not count |
| CanonicalQuery.KeysAgreeExactly | internal/middleware/usage_query_cache.go:366-396 | Two queries share the key string if and only if they have the same parameters, equal value lists where the first value is read and equal multisets where values form a set |
| CanonicalQuery.SharedKeySameReply | internal/middleware/usage_query_cache.go:366-396 | Queries that share a key read the same to the handler, parameter by parameter |
| CanonicalQuery.EncodeIsInjective | internal/middleware/usage_query_cache.go:366-396 | The encoded string determines the query |
| CanonicalQuery.TextIsInjective | internal/middleware/usage_query_cache.go:366-396 | Pairs joined by = and & after an injective escape free of both are told apart by the joined string |
| CanonicalQuery.CanonicalAgreesExactly | internal/middleware/usage_query_cache.go:366-396 | Two queries have one canonical form if and only if they ask the same: equal lists, or equal multisets where values form a set |
| CanonicalQuery.SortForgetsOrderOnly | internal/middleware/usage_query_cache.go:366-396 | Sorted value lists are equal if and only if the multisets are |
| CanonicalQuery.BuildCanonical | internal/middleware/usage_query_cache.go:366-396 | The loop builds the canonical query |
| TokenDeletion.DeletedUsageNeverReturns | internal/repo/usage_token_repo.go:121-224 | A row deleted by any step but a sweep is not stored at the end of the run: always if it was below a user or device mark or its device was revoked, and if uploads respect the cutoffs of earlier sweeps when a window alone deleted it |
| TokenDeletion.SealedUsageNeverReturns | internal/repo/usage_token_repo.go:617-684 | Whatever was ever below a user or device mark, or purged, or deleted while its device was revoked, is refused and not stored at the end of every run, however sweeps and uploads are timed |
| TokenDeletion.PurgedDeviceStaysEmpty | internal/repo/usage_token_repo.go:851-892 | After a device is revoked with a purge, no bucket of it is stored at the end of any run |
| TokenDeletion.DeletionIsRememberedExactly | internal/repo/usage_token_repo.go:617-682 | A deleted row is refused from then on if and only if its start is below the mark, it lies in the deleted window, or its device is revoked |
| TokenDeletion.DeletedRowReturnsExactly | internal/repo/usage_token_repo.go:121-207 | In every run, an upload right after a deletion restores the row if and only if that condition fails |
| TokenDeletion.DeletionAtTheMarkIsForgotten | internal/repo/usage_token_repo.go:617-647 | A run in which deleting all usage removes a bucket that starts at the mark and the next upload restores it |
| TokenDeletion.KeyReturnsExactly | internal/repo/usage_token_repo.go:121-207 | After every run, an upload of a key that is not stored is stored if and only if the key is neither cleared nor under a revoked device |
| TokenDeletion.MarkedUsageNeverReturns | internal/repo/usage_token_repo.go:121-224 | No stored row was ever below a mark, in a deleted window, purged, or deleted while its device was revoked; only for rows marked by a window alone must uploads respect the cutoffs of earlier sweeps |
| TokenDeletion.LateUploadBringsDeletedUsageBack | internal/repo/usage_token_repo.go:894-926 | A run in which an upload older than a sweep's cutoff, written after the sweep, restores a deleted bucket that was remembered |
| TokenUsage.NothingClearedIsEverStored | internal/repo/usage_token_repo.go:121-224 | In every reachable state no stored bucket lies under a user watermark, a device watermark or an applicable tombstone |
| TokenDeletion.EveryRunIsGuarded | internal/repo/usage_token_repo.go:617-751 | Everything ever marked and not yet beyond a sweep cutoff is still refused |
| TokenDeletion.MarkIsRefused | internal/repo/usage_token_repo.go:617-751 | A deletion's mark refuses what it marks, and nothing marked is stored |
| TokenUsage.IngestAdds | internal/repo/usage_token_repo.go:121-207 | A row that appears by ingest is the row of a bucket of the batch under the uploader's key, neither cleared nor under a revoked device |
| TokenUsage.MergeIsExact | internal/repo/usage_token_repo.go:711-746 | The merged tombstone covers exactly the new window and the tombstones it replaces |
| TokenUsage.MergeStaysApart | internal/repo/usage_token_repo.go:711-746 | A tombstone left in place is disjoint from the merged one |
| TokenUsage.EveryRunIsTidy | internal/repo/usage_token_repo.go:684-751 | In every run the tombstones of one user and scope are pairwise disjoint |
| TokenUsage.WindowClearsExactly | internal/repo/usage_token_repo.go:684-751 | After a window deletion a start is cleared if and only if it was before or lies in the window and scope |
| TokenUsage.IngestAccounts | internal/repo/usage_token_repo.go:183-259 | For a batch with distinct keys accepted plus discarded is the batch size and updated equals accepted |
| TokenUsage.UpsertStoresEach | internal/repo/usage_token_repo.go:228-259 | Every kept bucket is stored with its own counts and no other row changes |
| TokenUsage.ResendingChangesNothing | internal/repo/usage_token_repo.go:121-207 | Sending a batch again leaves the store unchanged |
| TokenUsageRepo.PrefilterDecides | internal/repo/usage_token_repo.go:162-192 | Tombstones selected by the batch's span decide every start within it as the full set would |
| TokenUsageRepo.BucketCleared | internal/repo/usage_token_repo.go:211-224 | True if and only if the start is below a watermark or inside a selected tombstone |
| TokenUsageRepo.Span | internal/repo/usage_token_repo.go:162-175 | The least and greatest start of a batch |
| TokenUsageRepo.UsageTokenRepo.Filter | internal/repo/usage_token_repo.go:162-192 | Splits a batch into kept buckets and discarded indexes as the full tombstone set would |
| TokenUsageRepo.UsageTokenRepo.Upsert | internal/repo/usage_token_repo.go:228-259 | Writes every kept bucket, or nothing when one key occurs twice |
| TokenUsageRepo.UsageTokenRepo.IngestBuckets | internal/repo/usage_token_repo.go:121-207 | The whole transaction: outcome and new store are those of the specification |
| TokenUsageRepo.UsageTokenRepo.DeleteAll | internal/repo/usage_token_repo.go:617-647 | Removes all of the user's buckets and advances the user watermark, never back |
| TokenUsageRepo.UsageTokenRepo.DeleteByDevice | internal/repo/usage_token_repo.go:649-682 | Removes all buckets of a known device and advances its watermark, never back; an unknown device changes nothing |
| TokenUsageRepo.UsageTokenRepo.DeleteWindow | internal/repo/usage_token_repo.go:684-751 | Removes the window's buckets and merges it with the tombstones it overlaps |
| TokenUsageRepo.UsageTokenRepo.MergeOverlaps | internal/repo/usage_token_repo.go:711-746 | The loop over overlapping tombstones finds the least start and the greatest end |
| TokenUsageRepo.UsageTokenRepo.RevokeDevice | internal/repo/usage_token_repo.go:851-883 | Revokes the device and, when purging, removes its buckets |
| TokenUsageRepo.UsageTokenRepo.SweepRetention | internal/repo/usage_token_repo.go:894-907 | Removes exactly the buckets and tombstones past the cutoff and reports how many |
| TokenUsageRepo.UsageTokenRepo.SweepBucketBatches | internal/repo/usage_token_repo.go:912-926 | The batch loop over expired buckets |
| TokenUsageRepo.UsageTokenRepo.SweepTombstoneBatches | internal/repo/usage_token_repo.go:912-926 | The batch loop over expired tombstones |
| TokenIngest.DedupeKeyIsExact | internal/handler/usage_tokens.go:300-303 | On validated buckets the NUL-joined key is injective: equal if and only if the storage keys are |
| TokenIngest.JoinIsInjective | internal/handler/usage_tokens.go:300-303 | Joining NUL-free fields with NUL loses nothing |
| TokenIngest.ValidatedIsClean | internal/handler/usage_tokens.go:307-388 | No field of a validated bucket holds a NUL |
| TokenIngest.FindDuplicate | internal/handler/usage_tokens.go:273-282 | Finds the first bucket whose key an earlier one has, or shows all keys distinct |
| TokenIngest.ValidateRequest | internal/handler/usage_tokens.go:195-282 | Accepts if and only if every rule holds; an error without a bucket occurs exactly when the header fails, with the code of the first failing rule; one with a bucket names the first bucket failing the first check that fails |
| TokenIngest.ValidateBuckets | internal/handler/usage_tokens.go:255-282 | The decision on the buckets, in the order size, validity, repetition |
| TokenIngest.ReadBuckets | internal/handler/usage_tokens.go:255-272 | Every bucket validated, or the first that is not valid |
| TokenIngest.FirstRepeatIsCulprit | internal/handler/usage_tokens.go:273-282 | A duplicate error names the first bucket whose key an earlier one has |
| TokenIngest.AcceptedBatchIsAccounted | internal/handler/usage_tokens.go:195-282 | An accepted batch is within its too-old threshold, never meets one key twice in the upsert, and is fully accounted for as accepted or discarded |
| AnthropicTurns.BuildTurns | internal/llm/anthropic.go:33-115 | The merge-as-you-go loop yields, for the maximal user/tool and assistant runs of the conversation, one turn per run with its tool results first, starting with a user turn; the three errors occur exactly when stated |
| AnthropicTurns.BuiltTurnsAreFaithful | internal/llm/anthropic.go:33-115 | Turns strictly alternate, tool results lead every turn, and reading the turns back gives every tool result and every other block once, each kind in message order |
| AnthropicTurns.MaximalRunsAreUnique | internal/llm/anthropic.go:33-103 | There is exactly one way to cut a conversation into maximal runs |
| AnthropicTurns.RunsAreMaximal | internal/llm/anthropic.go:33-103 | The runs used by the specification are those |
| AnthropicTurns.TurnsKeepEveryBlock | internal/llm/anthropic.go:33-103 | No block is lost, added or reordered among its kind |
| AnthropicTurns.EmptyTurnsExactly | internal/llm/anthropic.go:39-69 | An output turn is empty if and only if its whole run carries no block, which only user messages can cause |
| AnthropicTurns.DecodedTurnsAreNotEmpty | internal/model/chat.go:178-223 | No turn of a conversation whose messages were decoded from a request is empty |
| AnthropicTurns.EmptyPartsOpenEmptyTurn | internal/model/chat.go:292-309 | A message built in process with an empty list of parts opens an empty turn, and decoding never yields one |
| AnthropicTurns.BuildPayload | internal/llm/anthropic.go:26-176 | Turn errors come before tool errors; a ready payload has the turns of the runs, starting with the user, the named tools and the adjusted max_tokens |
| AnthropicTurns.BuildTools | internal/llm/anthropic.go:126-161 | Fails if and only if a tool does not decode; otherwise keeps the named tools |
| AnthropicTurns.NamedToolsAreKept | internal/llm/anthropic.go:126-161 | Only nameless tools are left out |
| AnthropicTurns.NamedToolsKeepOrder | internal/llm/anthropic.go:126-161 | The tools keep their order |
| AnthropicTurns.MergeItem | internal/llm/anthropic.go:46-98 | Merging one message into the last turn does to the turns what appending it does to the runs |
| AnthropicTurns.InsertResult | internal/llm/anthropic.go:83-98 | A tool result lands after the existing tool results and before every other block |
| AnthropicTurns.ShiftInsert | internal/llm/anthropic.go:93-96 | The in-place shift keeps both halves around the inserted block |
| AnthropicTurns.MaxTokens | internal/llm/anthropic.go:162-174 | With thinking on, max_tokens exceeds the thinking budget except exactly when both the request and the hard cap are within it; a raised value never exceeds the hard cap |
| UsageMeter.CutsDoNotMatter | internal/llm/openai.go:109-158 | Where every line fits the cap, every way of cutting the stream into reads ends with the fold over the complete lines and the open tail pending |
| UsageMeter.PendingStaysWithinCap | internal/llm/openai.go:109-132 | For every input the pending line stays within the cap |
| UsageMeter.SummaryAppend | internal/llm/openai.go:109-132 | Two reads are one read of their concatenation, provided the line the first leaves open fits |
| UsageMeter.OverlongLineDependsOnTheCut | internal/llm/openai.go:109-132 | On a line over the cap that ends in a usage event one cut meters the event and another does not |
| UsageCuts.CutsMatterExactly | internal/llm/openai.go:109-132 | What is handed to the decoder is the same for every cut of a text into reads if and only if no overlong line has, beyond the cap, a suffix within the cap that is a data line naming usage |
| UsageCuts.StateDependsExactly | internal/llm/openai.go:109-132 | The whole state is the same for every cut if and only if, in addition, the unterminated tail is at most one byte over the cap |
| UsageCuts.TrackerIsHanded | internal/llm/openai.go:109-158 | The tracker's state after any reads is what is pending and the last usage among the payloads handed to the decoder |
| UsageCuts.HidingShows | internal/llm/openai.go:109-132 | A cut into two reads that hands over one payload more than a single read, whenever a line hides another |
| UsageCuts.CutsMeterAlike | internal/llm/openai.go:109-132 | If nothing an overlong line hides carries usage, every cut of a text ends with the usage of a single read, from every start |
| UsageCuts.CutsMeterTheRest | internal/llm/openai.go:109-132 | What was read before a newline reaches the end of the stream only through the usage it left, whatever overlong lines it held |
| UsageMeter.LinesRoundTrip | internal/llm/openai.go:109-132 | Lines and tail together are the text |
| UsageMeter.LinesHoldNoNewline | internal/llm/openai.go:109-132 | Neither a line nor the tail holds a newline |
| UsageMeter.TrackerAgreesWithBatch | internal/llm/openai.go:59-80 | On streams of single-line data events the tracker and the batch reading report the same usage, from every start, if each event that carries usage holds the word the tracker looks for and fits the cap |
| UsageMeter.AgreeExactly | internal/llm/openai.go:59-158 | Tracker and batch reading agree on every stretch of a stream of data events, taken in one read, if and only if each event that carries usage holds the word the tracker looks for and fits the cap |
| UsageMeter.TakenIsReadExactly | internal/llm/openai.go:137-158 | On one event: the two do the same from every start if it is seen, and from nothing the batch form alone reads usage if it is not |
| UsageAgreement.AlwaysAgreeExactly | internal/llm/openai.go:59-158 | They agree on every stretch and for every way of cutting it into reads if and only if, in addition, no overlong event hides one that carries usage |
| UsageAgreement.ShortEventsArePlain | internal/llm/openai.go:100-158 | For an event within the cap that condition is the spelling of the key alone |
| UsageAgreement.HiddenUsageIsMetered | internal/llm/openai.go:109-132 | A cut right before hidden usage makes the tracker meter it |
| UsageMeter.OtherSpellingIsMissed | internal/llm/openai.go:137-158 | Of a stream of one event with its usage under another spelling of the key, the batch form reads the usage and the tracker ends with none |
| UsageMeter.UsageTracker.Feed | internal/llm/openai.go:109-132 | One read leaves the fold over the lines that fit and the open tail if it fits |
| UsageMeter.UsageTracker.ScanLine | internal/llm/openai.go:137-158 | A complete data line naming usage replaces the counts if it decodes to some |
| UsageMeter.ExtractStreamUsage | internal/llm/openai.go:59-80 | The batch loop: last usage of the blank-line separated blocks |
| StreamTranslation.TranslatedStreamIsMetered | internal/llm/anthropic_stream.go:74-203 | However the translated bytes are cut into reads, the tracker ends with nothing pending and the usage the events announced, if the last usage chunk fits the cap and no line from there on hides usage; without message_stop it reports usage exactly when some counter is above zero |
| StreamTranslation.StoppedStreamIsMetered | internal/llm/anthropic_stream.go:129-131 | On a stream that ends with message_stop the same holds whatever the length of the content, if the final usage chunk fits the cap |
| StreamTranslation.FinalStopReportsLastCounts | internal/llm/anthropic_stream.go:122-131 | With one final message_stop the last message_start input and the last message_delta output are reported |
| StreamTranslation.DoneIffStopped | internal/llm/anthropic_stream.go:74-156 | [DONE] is sent if and only if a message_stop occurred |
| StreamTranslation.FlushedUsage | internal/llm/anthropic_stream.go:74-156 | The last usage chunk sent carries the counters at the last message_stop, or those at the end when there was none and one is positive |
| StreamTranslation.TranslateEvents | internal/llm/anthropic_stream.go:74-156 | The loop sends what the event fold says |
| KeyPools.RetryTakesAnotherKey | internal/service/chat.go:388-429 | With two or more keys, a fixed cooldown, a monotone clock and no call in between, the retry after Cool never gets the rejected key, whether keys are free, all cooled, tied, or already out of cooldown |
| KeyPools.CooledKeyReturnsExactly | internal/llm/keypool.go:32-63 | After any run of Acquire and Cool, a key still cooled is handed out if and only if every other key is cooled too, none expires before it and none with its expiry is scanned before it |
| KeyPools.RejectedKeyCanReturn | internal/llm/keypool.go:32-63 | A run under a monotone clock in which a request gets its rejected key back before its cooldown ends, for every gap between the two rejections: with a tie and with unequal expiries |
| KeyPools.EveryRunIsSound | internal/llm/keypool.go:32-63 | In every run the scan start and the cooled keys stay within the pool |
| KeyPools.EveryRunIsBounded | internal/llm/keypool.go:56-63 | In every run under a monotone clock no cooldown outlasts one granted now |
| KeyPools.EveryKeyIsVisited | internal/llm/keypool.go:32-54 | With no cooled key, n calls visit all n keys |
| KeyPools.RotationIsCyclic | internal/llm/keypool.go:32-54 | With no cooled key, call i hands out the key i places on |
| KeyPools.ChoiceIsUnique | internal/llm/keypool.go:32-54 | First usable key in cyclic order, else the first of those expiring earliest: this determines the key |
| KeyPools.UsableWins | internal/llm/keypool.go:32-54 | Whenever some key is usable, the key handed out is usable |
| KeyPools.KeyPool.Scan | internal/llm/keypool.go:38-53 | The scanning loop finds that key |
| KeyPools.KeyPool.Acquire | internal/llm/keypool.go:32-54 | Hands out that key and moves next past it; an empty pool gives -1 |
| KeyPools.KeyPool.Cool | internal/llm/keypool.go:56-63 | Cools a key in range and ignores any other index |
| KeyPools.Request | internal/service/chat.go:388-429 | A request uses a second key exactly when there are several keys and the first attempt got 429 or 5xx; the keys used are distinct, the last answer or transport error is reported, and cooldowns stay bounded for the next request |
| VipGrants.ExactlyOncePerKey | internal/service/admin_users.go:305-453 | Over every interleaving, an (app, key) has at most one committed change and every successful answer for it is the one stored reply |
| VipGrants.EveryRequestIsAccounted | internal/service/admin_users.go:305-453 | Over every interleaving, a fresh success has exactly one change and one audit row, a rejection exactly one vip.reject row and no change, any other request nothing |
| VipGrants.NoRunShortens | internal/repo/admin_users_repo.go:420-442 | Over every run of grants and extensions no expiry moves back, no plan changes and a lifetime membership stays lifetime |
| VipGrants.StoredRepliesStay | internal/repo/admin_users_repo.go:448-459 | A stored reply is never replaced |
| VipGrants.NoDeadlock | internal/repo/admin_users_repo.go:372-459 | Whenever a transaction is unfinished some transaction can take a step |
| VipGrants.EveryRunKeepsInv | internal/service/admin_users.go:305-453 | Locks, pending writes, stored replies and logs agree in every reachable state |
| VipGrants.NextKeepsInv | internal/repo/admin_users_repo.go:372-459 | Every statement of every transaction keeps that agreement |
| VipGrants.CommitKeepsOthers | internal/repo/admin_users_repo.go:372-459 | A commit touches no row and no key that another transaction relies on |
| VipRaces.LostGrantEnds | internal/service/admin_users.go:475-491 | A keyed grant that lost the insert can replay whatever other transactions do in the meantime, writes nothing, and finds no reply if and only if nothing was stored under its key at the start and no change has been committed under it |
| VipRaces.RacesAreLostExactly | internal/service/admin_users.go:364-437 | A transaction is sent to replay by a step if and only if it has a key and the step is its own insert meeting a row of the user, or its own key entry meeting a stored reply |
| VipRaces.StoredKeysExactly | internal/repo/admin_users_repo.go:448-459 | In every run the stored keys are the initial ones and those of the committed changes |
| VipRaces.LostGrantCanFail | internal/service/admin_users.go:364-377 | From an empty database, two grants of one user under any two different keys can interleave so that the second ends with no stored reply |
| VipGrants.AdminUsersService.AddVipDays | internal/service/admin_users.go:295-453 | One request alone: replay or mismatch for a stored key, not found, rejection with its audit row, or change, audit row and stored reply together |
| VipGrants.AdminUsersService.Decide | internal/service/admin_users.go:360-411 | No row grants monthly; lifetime and retired plans are refused; anything else is extended from the later of its expiry and now |
| Sessions.EveryRunIsAcyclic | internal/repo/repo.go:782-822 | In every run no session reaches itself by rotations |
| Sessions.EveryRunIsLinked | internal/repo/repo.go:690-861 | In every run links go from revoked sessions to later ones and each session has at most one predecessor |
| Sessions.LinksKeptExactly | internal/repo/repo.go:782-822 | A call keeps the links well formed if and only if it is not a rotation of an unknown live session into its own id |
| Sessions.SelfRotationLoops | internal/repo/repo.go:782-822 | That call links the session to itself |
| Sessions.OneLiveSessionPerChain | internal/repo/repo.go:782-822 | At most one live session is reachable from any session, and it is the end of the chain |
| Sessions.RevocationsStay | internal/repo/repo.go:758-861 | Over every run revocation is never undone, and a recorded revocation time, a link and an owner never change |
| Sessions.ChainIsReach | internal/repo/repo.go:707-720 | The recursive query collects exactly the sessions reachable by links, on cyclic tables too |
| Sessions.RevokeChainIsExact | internal/repo/repo.go:707-720 | On any table, RevokeChainFrom revokes every live session of that user reachable from the start and changes nothing else |
| SessionRaces.LateRowsEscapeExactly | internal/repo/repo.go:707-720 | With other transactions between the chain query and its update, a session on the chain that is live then stays live if and only if it was inserted since the query began |
| SessionRaces.RotationEscapes | internal/repo/repo.go:782-822 | A rotation in between leaves its new session live |
| SessionRaces.UndisturbedRevocation | internal/repo/repo.go:707-720 | With nothing in between the two steps are the single one |
| Sessions.SessionRepo.Create | internal/repo/repo.go:690-696 | Inserts unless the id exists |
| Sessions.SessionRepo.CollectChain | internal/repo/repo.go:707-720 | The link-following loop terminates on every table with the chain |
| Sessions.SessionRepo.RevokeChainFrom | internal/repo/repo.go:707-720 | New table as specified; an unknown start changes nothing |
| Sessions.SessionRepo.Revoke | internal/repo/repo.go:758-766 | Revokes and keeps the first revocation time |
| Sessions.SessionRepo.RevokeIfNotRevoked | internal/repo/repo.go:768-780 | Revokes a live session and reports whether it did |
| Sessions.SessionRepo.RotateRefresh | internal/repo/repo.go:782-822 | Inserts the successor and links the old session to it, or rolls both back |
| Sessions.SessionRepo.ExchangeAuthCode | internal/repo/repo.go:824-861 | Revokes the old session and inserts the new one, or does neither |
| Backfill.DryRunPredicts | cmd/inference-entitlement-backfill/main.go:189-220 | From the same database, for every candidate list with distinct subscriptions, both modes report equal grants, skips and errors, and the dry run's account count is over by exactly the repeated users |
| Backfill.RepeatedUserIsOvercounted | cmd/inference-entitlement-backfill/main.go:302-399 | For any two workable candidates of one user on an empty database the dry run counts two accounts and the real run one |
| Backfill.AccountsPredictedExactly | cmd/inference-entitlement-backfill/main.go:302-399 | The account counts agree if and only if no candidate counted for a new account follows a workable candidate of the same user; in particular when no user has two |
| Backfill.SecondRunCreatesNothing | cmd/inference-entitlement-backfill/main.go:326-399 | A second real run changes nothing and counts no creation |
| Backfill.RealRunOnlyAdds | cmd/inference-entitlement-backfill/main.go:326-399 | No row that existed before is changed or removed |
| Backfill.CleanedIsExact | cmd/inference-entitlement-backfill/main.go:406-424 | The target set holds exactly the non-empty trimmed ids, once each |
| Backfill.CleanedKeepsOrder | cmd/inference-entitlement-backfill/main.go:406-424 | Ids keep the order of their first occurrences |
| Backfill.BuildTargetModels | cmd/inference-entitlement-backfill/main.go:406-424 | The loop with its seen map builds that list; an empty list means the full catalog |
| Backfill.Pass.Process | cmd/inference-entitlement-backfill/main.go:255-264 | Outcome and database change of one candidate, in either mode |
| Backfill.Pass.Run | cmd/inference-entitlement-backfill/main.go:189-220 | Report and database of a whole pass; a dry run writes nothing |
| Dsn.RoundTrip | internal/config/config.go:510-567 | Printing any non-empty list of pairs, quoted or bare, with any white space between them, and parsing it gives the pairs back |
| Dsn.LastValueWins | internal/config/config.go:510-567 | For a repeated key the last value is the one returned |
| Dsn.ReadsEscaped | internal/config/config.go:528-549 | An escaped value is read back up to its closing quote |
| Dsn.ReadQuoted | internal/config/config.go:528-549 | The quoted-value loop; an unterminated quote or trailing backslash gives no value |
| Dsn.ReadValue | internal/config/config.go:528-560 | Quoted or bare value; a closing quote must be followed by white space or the end |
| Dsn.ParseKeywordDSN | internal/config/config.go:510-567 | The lexer terminates on every input with the specified result |

## Left out

- Transport and wiring: WebSocket frames, timers, HTTP handlers, Prometheus, logging and configuration loading; lock sections, enqueues and socket writes are the steps.
- SQL, drivers and connection failures: tables are maps, transactions are atomic or statement-by-statement steps, unique indexes are map keys.
- JSON, hashing and cryptography: decoders, encoders and digests are parameters or fields with only the stated assumptions.
- Payments, refunds, webhooks, wallets, inference gateway workers, OAuth flows, migrations, analytics and admin metrics.
- Concurrent stream slots, CSV export, usage queries and device listings: they would only add easy members.
- Clocks: bucket numbers, `now` values and sweep cutoffs are inputs; monotonicity is a hypothesis where a property needs it.
- RelayService.Hub.Register: the kick the code starts after releasing the lock follows at once; any later interleaving of that close is covered by the connection steps of `RelayHub.Next`.
- RelayService.Hub.Shutdown: one call without interleaving, up to the wait for connections to finish; interleavings of its broadcasts are those of `RelayShutdown.ShutdownIsDelivered`.
- RelayConn.CloseIsQueuedLast: with no late sender; the general case is `RelayClose.ClosedFrameIsSafeExactly`.
- CanonicalQuery.KeysAgreeExactly: percent-escaping is a parameter, assumed injective and free of & and = in its output.
- TokenUsageRepo.UsageTokenRepo.SweepRetention: one call without interleaving; batches between other steps are `SweepBuckets` and `SweepTombstones` of `TokenUsage.Next`.
- TokenUsageRepo.UsageTokenRepo.SweepBucketBatches: without other writers between its batches, as for `SweepRetention`.
- TokenUsageRepo.UsageTokenRepo.SweepTombstoneBatches: without other writers between its batches, as for `SweepRetention`.
- AnthropicTurns.BuildPayload: a tool is decoded or not, and its schema, image-source shapes and the decoding of tool-call arguments are omitted.
- SessionRaces.LateRowsEscapeExactly: the update step sees each row as last committed; row locks are not modelled.
- RelayPresence.EveryRunKeepsInv: the rooms gauge is omitted and the connection gauges change in the same step as the maps.
- UsageCache.UsageQueryCache.InvalidateOnSuccess: generations are unbounded integers, without the wrap-around of uint64.
- TokenUsage.IngestAccounts: labels and last-seen times of devices are omitted.
- TokenIngest.ValidateRequest: timestamps and numbers arrive parsed, and prompt plus completion does not overflow int64.
- TokenIngest.DedupeKeyIsExact: the RFC 3339 formatter is assumed to tell instants apart in text without NUL.
- UsageMeter.AgreeExactly: for streams of single-line data events; trimming covers ASCII white space only.
- UsageAgreement.AlwaysAgreeExactly: for streams of single-line data events; trimming covers ASCII white space only.
- StreamTranslation.TranslatedStreamIsMetered: events arrive parsed and the writer succeeds; the last usage chunk is assumed to fit the tracker's cap.
- VipGrants.NoRunShortens: for positive day counts, as the handler admits, and without other code changing the rows.
- VipGrants.AdminUsersService.AddVipDays: one request without interleaving; interleavings are the steps of `VipGrants.Next`.
- Sessions.SessionRepo.Create: columns no session method inspects or changes are omitted.
- Backfill.Pass.Process: runs alone, so the conflict clause of the entitlement insert never fires; statement failures are omitted.
- Dsn.ParseKeywordDSN: case folding is a parameter and text is characters, not bytes.
