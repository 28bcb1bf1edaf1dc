# A verified model of the DMN runtime

The repository runs one persistent token sequence with crash-safe checkpoints around it. This project models its
hardest behaviour in Dafny and proves what that behaviour is relied on for. It follows the code: where a promise
turned out not to hold of the code, the code's behaviour is modelled, an input that breaks the promise is exhibited,
and the exact condition under which it holds is proved.

`dafny verify dfyconfig.toml` checks everything.

## What is modelled

- **Context retirement** (`Prompts`, `CompactCache`, `Retirement`, `Headroom`, `WorkingMemory`, `Runtime`). The planner
  merges overlapping protected spans, finds the free gaps and emits ranges in progressively shifted coordinates; a
  second function relocates every span and marker. The planner is proved against a specification on positions, a whole
  plan against the meaning of every protected span, and the scheduler's headroom arithmetic against the hard guard.
- **Native cache codec** (`Bytes`, `SessionFormat`, `NativeCache`, `Compaction`, `CacheFiles`, `CacheCompactor`).
  A byte-level encoder, the strict parser, the run-coalescing compactor and the independent verifier.
- **Durable protocols** (`DeepSleep`, `Inbox`, `InboxEffects`, `Delivery`, `Bridge`, `Relay`, `Memories`, `Review`). State machines in
  which the process can die between any two steps; SQLite transactions are atomic steps on maps and sets, a crash
  loses every in-memory field, and hashes (SHA-256, uuid5) are injective.
- **Web request ledger** (`WebRates`, `WebRestart`, `WebPauses`, `WebRequests`, `WebService`). Sliding windows over a clock that
  survives restarts, what a restart can forget of them, the request state machine and the evicting cache; times are
  reals.
- **Streaming parser, text, pacing and selection** (`ActionParser`, `ActionText`, `Pacer`, `TopK`).

Objects whose fields the program updates are classes (`Runtime.Runtime`, `CacheFiles.Reader`, `ActionParser.Parser`,
`WebService.WebService`, `Delivery.Runtime`, `Memories.MemoryStore`, `Pacer.ActivityPacer`); loops are methods with
invariants; what they compute is tied to pure functions, about which the theorems are proved.

Randomness, sampling, tokenisation, network answers, file-system failures and other threads' requests are inputs.

## Promises the code does not keep in full

- The notice that opens a retirement is meant to fit after ordinary generation. At the default reserve of 1024 it may
  not: it fits for every ordinary length exactly when the reserve is at least 1056 (`Headroom.NoticeFitsExactly`,
  `Headroom.DefaultReserveIsTooSmall`).
- An accepted working-memory note can use the space of that notice even at a larger reserve
  (`WorkingMemory.AcceptedNoteCanCrowdOutNotice`); it never does exactly when two event budgets remain beyond the note
  (`WorkingMemory.NoteLeavesNoticeExactly`).
- A refused web request prunes the rate table without saving the clock. If the process dies then, the restored clock is
  older than the pruning and requests that still matter are forgotten: under every policy, a Retry-After of more than a
  day leads to two requests at one moment of ledger time (`WebRestart.ForgottenRequest`). Which limits a restart can
  break is decided exactly: the pacing, when the table is empty and both the saved clock and the breaker are earlier than
  the newest forgotten request plus the interval (`WebRestart.PaceBreaksExactly`); a window of requests, when the n-th
  request, sent as soon as the stored table allows, comes within the window of a forgotten one that it must not follow so
  closely (`WebRestart.WindowBreaksExactly`); the byte budget, when forgotten rows hold bytes of the day before the first
  request (`WebRestart.BytesBreakExactly`). All limits hold over every run in which no restart falls between a pruning
  that removed a row and the next saving of the clock (`WebRates.EveryRunIsLimited`).
- A host's Retry-After is meant to hold on the ledger's clock whatever happens to the process. The same unsaved pruning can
  remove the host's row before that clock, restored by a restart, has reached it (`WebPauses.ForgottenPause`). Some
  continuation of a restart asks the host too early exactly when the saved clock, the stored rows and the stored host row
  allow a request before the pause ends (`WebPauses.PauseBreaksExactly`); over every run whose restarts find the clock past
  the pause or the row still there the pause holds (`WebPauses.PauseIsKept`).
- A plan that asks to wake the previous state after a failure may still stop: the previous slot can already hold a
  review wake. `DeepSleep.ReviewWakeBlocksPrevious` is such a run, `DeepSleep.FailureWakesExactly` the exact condition.
- A reused transport placeholder is meant to be a leaf, which nothing checks: its children disappear from its child list
  (`Bridge.PlaceholderLosesItsChild`). No child is lost exactly when no placeholder is reused or it has no children
  (`Bridge.NoChildLostExactly`).
- A memory is to be read before it is replaced, but any page of it grants the replacement, even one past its end or one
  that was too long to be delivered (`Memories.UnreadReplacementIsPermitted`); `Memories.GrantMeansContentExactly` says
  exactly when a grant means that the content has been in the sequence.

## Model

| member | source | states |
|---|---|---|
| `Prompts.CollectSpans` | dmn/prompts.py:15-26 | Succeeds exactly for a well-formed state; the collected spans are the prefix and every present, not excluded protected span |
| `Prompts.ProtectedRanges` | dmn/prompts.py:15-33 | Returns the canonical (ascending, separated) list whose coverage is exactly the protected positions, or an error exactly when the state is malformed |
| `Prompts.CanonicalUnique` | dmn/prompts.py:26-33 | The merged list is a normal form: equal coverage forces equal lists |
| `Prompts.MergeAllCovers` | dmn/prompts.py:26-33 | Merging sorted spans changes neither which positions are covered nor adds any |
| `Prompts.ProtectedSize` | dmn/prompts.py:36-37 | Is the number of protected positions, overlaps counted once |
| `Prompts.FindGaps` | dmn/prompts.py:75-87 | The separated gaps list exactly the unprotected positions before the retained suffix, in order |
| `Prompts.TakeOldest` | dmn/prompts.py:88-99 | The ranges, in shifted coordinates, delete exactly the first `quota` positions of the gaps |
| `Prompts.RetirementRanges` | dmn/prompts.py:68-99 | A plan exists exactly when enough free positions precede the suffix; it deletes exactly the k oldest of them, k being the larger of half the first run and what is needed |
| `CompactCache.ValidateRetirements` | dmn/compact_cache.py:5-18 | Accepts exactly the range lists each of whose steps stays within the sequence and leaves the recent window |
| `Retirement.ClearNeverOverlaps` | dmn/prompts.py:102-108 | A range of free positions is never refused by the relocation's overlap check |
| `Retirement.ProtectionFollows` | dmn/prompts.py:102-122 | After one shift a position is protected exactly when the token now there was protected before, also when the protocol folds into the prefix |
| `Retirement.ShiftKeepsMeaning` | dmn/prompts.py:102-122 | One shift leaves every protected span, the permanent tokens and the union of protected tokens denoting the same tokens |
| `Retirement.FreeAfterShift` | dmn/prompts.py:88-99 | The free positions after a shift are the remaining free positions, moved down: why later ranges are in shifted coordinates |
| `Retirement.PlanStep` | dmn/runtime.py:925-927 | Each step of a plan removes only free tokens before the window, and the rest is a plan for what remains |
| `Retirement.PlanPassesValidation` | dmn/runtime.py:919-924 | Every plan passes the validator as a whole, and each of its steps passes the shift's own check |
| `Retirement.PlanDeletesExactly` | dmn/runtime.py:925-927 | Carrying out a plan leaves exactly the tokens outside the k oldest free positions, in their order |
| `Retirement.PlanKeepsRecent` | dmn/runtime.py:925-927 | The last `window` tokens survive every plan unchanged |
| `Retirement.PlanKeepsMeaning` | dmn/runtime.py:925-927 | Over a whole plan every protected span keeps denoting the same tokens |
| `Retirement.RetirementTheorem` | dmn/runtime.py:915-927 | Planner and execution together: what `RetirementRanges` returns can be carried out, keeps meaning, window and order, and shortens the sequence by k |
| `Headroom.TokenAndResultFit` | dmn/runtime.py:843-869 | A sampled token and its largest result stay below the hard guard of n_ctx-32 |
| `Headroom.NoticeFitsExactly` | dmn/runtime.py:843-845 | The retirement notice fits after every ordinary length exactly when the reserve is at least two budgets and the guard, that is 1056 |
| `Headroom.DefaultReserveIsTooSmall` | dmn/config.py:123-128 | At the default reserve of 1024 the grace is 0 and a notice can overrun the guard |
| `Runtime.Runtime.Shift` | dmn/backend.py:315-325 | Removes exactly the range from the token list, or refuses and changes nothing, exactly as the window check says |
| `Runtime.Runtime.ShiftProtected` | dmn/prompts.py:102-122 | Relocates every span and the marker and folds the protocol, or refuses exactly on overlap leaving the state unchanged |
| `Runtime.Runtime.Retire` | dmn/runtime.py:925-927 | The loop over ranges is never refused midway and computes the whole plan |
| `Runtime.Runtime.EnsureSpace` | dmn/runtime.py:847-869 | With room already there nothing is done; otherwise exactly one whole turn of retirement is, after which there is room unless it was stopped; the branch for a retirement that made no room is unreachable |
| `Runtime.Runtime.Consolidate` | dmn/runtime.py:871-958 | From an ordinary length with reserve >= 2*budget+32 the notice and the preparation, token by token as sampled, never exhaust the context; a completed one is exactly the retirement of the oldest free positions and restores the soft limit |
| `Runtime.Runtime.Prepare` | dmn/runtime.py:892-908 | The preparation samples until it is complete, stopped or used up; the sequence is the one before extended by exactly what each sampled token caused |
| `Runtime.Runtime.Respond` | dmn/runtime.py:1007-1042 | An accepted action inserts exactly its tokens and its result and sets its spans and mark; a refused one exactly its result; with no action exactly the result and the interruption |
| `Runtime.Runtime.SampleOne` | dmn/runtime.py:960-1017 | One sampled token is appended, then exactly what it causes; the signals and the interruption decide whether the runtime stays active |
| `Runtime.Runtime.GenerateOne` | dmn/runtime.py:960-1017 | An active, unstopped runtime samples exactly when it has room after at most one retirement, and then what the token causes is exact: an accepted action leaves the token, its own tokens and its result with its spans and mark, any other token itself with the result and the interruption it was answered with. With one bounded insertion the reserved context is never exhausted |
| `Runtime.Runtime.AppendEvent` | dmn/runtime.py:810-829 | An event is inserted, as the sequence's new end, exactly when room was or could be made and no stop was requested meanwhile |
| `WorkingMemory.Usage` | dmn/working_memory.py:38-44 | Is the size of the union of the pins |
| `WorkingMemory.PlanAction` | dmn/working_memory.py:90-154 | Accepts exactly the actions within allowance, continuation space and immediate space, with the selected state change |
| `WorkingMemory.ActionDoes` | dmn/working_memory.py:90-154 | An accepted action changes exactly what it names: each pin, by key, denotes what the action selects or releases, and every other pin, the text and the mark stay |
| `WorkingMemory.RetirementKeepsUsage` | dmn/prompts.py:102-118 | A whole retirement changes no pin's charge |
| `WorkingMemory.EveryRunIsSound` | dmn/working_memory.py:90-154 | Over every run of appends, retirements and actions an intact marker denotes exactly what was appended since, and usage stays within the allowance |
| `WorkingMemory.PinsNeverBlockGeneration` | dmn/working_memory.py:143-150 | After any run of accepted actions the retirement that the next token needs can be planned |
| `WorkingMemory.NoteLeavesNoticeExactly` | dmn/working_memory.py:151-152 | The guard on a note leaves room for the next notice exactly when two budgets remain beyond it |
| `WorkingMemory.AcceptedNoteCanCrowdOutNotice` | dmn/working_memory.py:151-152 | An accepted note that leaves no room for the next notice |
| `NativeCache.AcceptedMeansEncoded` | dmn/native_cache.py:67-114 | An accepted file is byte for byte the encoding of the well-formed session it describes |
| `NativeCache.EncodedIsAccepted` | dmn/native_cache.py:67-114 | Every encoded well-formed session is accepted and parses back to itself |
| `NativeCache.EncodeInjective` | dmn/native_cache.py:67-114 | Different sessions have different files |
| `NativeCache.ParseCellsExact` | dmn/native_cache.py:72-77 | Cell records are accepted exactly when they are the encoding of in-range positions |
| `CacheFiles.Reader.Read` | dmn/native_cache.py:50-56 | Returns exactly the next n bytes and moves past them, or refuses and stays |
| `CacheFiles.ReadCache` | dmn/native_cache.py:67-92 | The section loop computes exactly the section parser, and ends at the section's end |
| `CacheFiles.InspectState` | dmn/native_cache.py:95-114 | Reading a file once with a moving position computes exactly the parser |
| `CacheFiles.Copy` | dmn/native_cache.py:117-124 | Copying in bounded pieces appends exactly the requested bytes and never runs out |
| `CacheFiles.Coalesce` | dmn/native_cache.py:151-157 | The runs list the same indices in order and no two neighbours could be merged |
| `CacheFiles.CopyRuns` | dmn/native_cache.py:158-159 | Run-coalesced copying writes the same bytes as copying row by row |
| `Compaction.KeptExactly` | dmn/native_cache.py:137-139 | A cell is kept exactly when its position is at or after the cutoff |
| `Compaction.CompactionKeepsRows` | dmn/native_cache.py:127-159 | Every kept position keeps its row in every tensor; nothing older remains |
| `Compaction.CompactTwice` | dmn/native_cache.py:127-159 | Compacting to w1 and then to w2 <= w1 is compacting to w2 |
| `Compaction.CompactIdempotent` | dmn/native_cache.py:127-159 | Compacting twice to the same window is compacting once |
| `Compaction.CompleteForNarrower` | dmn/native_cache.py:140-141 | A cache complete for a window is complete for every narrower one |
| `CacheCompactor.CompactState` | dmn/native_cache.py:127-166 | Writes exactly the encoding of the compacted session, which parses again to the same tokens; refuses exactly bad sources, bad windows and missing rows |
| `CacheCompactor.VerifyCompaction` | dmn/native_cache.py:183-213 | Accepts exactly the destinations that are the compaction of the source, for any integer window |
| `CacheCompactor.PrefixDecides` | dmn/native_cache.py:188-202 | Equal bytes before the local section mean equal tokens and global cache, and conversely |
| `CacheCompactor.CompactorMeetsVerifier` | dmn/native_cache.py:127-213 | What the compactor writes the verifier accepts |
| `CacheCompactor.VerifiedIsUnique` | dmn/native_cache.py:183-213 | The only file the verifier accepts for a valid window is the compactor's |
| `CacheCompactor.CompactFileTwice` | dmn/native_cache.py:127-166 | On files: compaction is idempotent, and a narrower second compaction equals the direct one |
| `ActionParser.Parser.Feed` | dmn/protocol.py:237-271 | Feeding a piece computes the fold of the one-byte step from the current state |
| `ActionParser.ChunkingIsUnobservable` | dmn/protocol.py:216-271 | Any chunking, with the state saved and restored between pieces, yields the actions and state of one feed |
| `ActionParser.MachineIsGrammar` | dmn/protocol.py:237-271 | The byte machine computes the grammar from any line position: frames and final state |
| `ActionParser.StreamTheorem` | dmn/protocol.py:237-271 | A fresh parser fed any chunks yields exactly the grammar's frames of their concatenation |
| `ActionParser.FirstOpeningIsLeast` | dmn/protocol.py:260-269 | A frame opens at the least line start at which the start marker stands |
| `ActionParser.FirstEndIsLeast` | dmn/protocol.py:241-247 | A frame's content ends at the first end marker |
| `ActionParser.RunStaysReachable` | dmn/protocol.py:255-269 | The retained buffer never exceeds the limit, or 11 bytes between frames |
| `ActionText.Repair` | dmn/protocol.py:45-58 | The loop over characters and flags computes the repair |
| `ActionText.RepairReads` | dmn/protocol.py:45-58 | The repaired text reads as the original with exactly the literal whitespace of its strings escaped; structure, quotes and invalid escapes stay |
| `ActionText.RepairIsExact` | dmn/protocol.py:45-58 | Repair is idempotent and leaves a text alone exactly when its strings hold no literal whitespace |
| `ActionText.EscapeIsOnePass` | dmn/protocol.py:200 | The three successive replacements equal one pass |
| `ActionText.EscapeKeepsMeaning` | dmn/protocol.py:196-200 | Escaping the delimiters of a JSON text leaves what a reader finds unchanged |
| `ActionText.OnlyOwnTags` | dmn/protocol.py:195-204 | In the plain and the marked format the only tags of an event are its own, at known places: input can neither end the record nor open an action frame |
| `ActionText.PayloadIsReadBack` | dmn/protocol.py:195-204 | In either format the event's tags stand at known places, and a reader of the text between them finds what the serialized JSON said |
| `WebRates.RoomInWindow` | dmn/web.py:224-239 | A zero wait means every window of the table has room |
| `WebRates.AppendWithin` | dmn/web.py:224-239 | A request that finds room keeps every window, wherever it ends, within its limit |
| `WebRates.PruneKeeps` | dmn/web.py:211-213 | Pruning keeps the whole history's limits decidable from the table |
| `WebRates.AdmitKeeps` | dmn/web.py:366-394 | One attempt keeps all windows, the pacing and the byte budget, whatever it answers |
| `WebRates.SettleKeeps` | dmn/web.py:399-402 | Booking the bytes really used breaks no limit |
| `WebRates.SettleBooks` | dmn/web.py:399-402 | Booking replaces exactly the reservation's size by the smaller of the two, if its row is still in the table |
| `WebRates.RestartKeeps` | dmn/web.py:125-150 | A restart after the last pruning that removed a row was saved finds every row that can still matter |
| `WebRates.EveryRunIsLimited` | dmn/web.py:117-150 | Over every run with such restarts, every 60 s, 3600 s and 86400 s window, the pacing and the daily bytes are within policy |
| `WebRestart.WithinIsSpaced` | dmn/web.py:234-238 | No window carries more than its maximum exactly when any two requests that many places apart are a window apart |
| `WebRestart.DueIsSoonest` | dmn/web.py:224-239 | After any restart a request is let through only when pacing and windows allow it on all rows known since, and then it is |
| `WebRestart.RushLeads` | dmn/web.py:224-239 | No continuation of a restart sends its requests sooner than sending each as soon as it is allowed |
| `WebRestart.OutrunBreaks` | dmn/web.py:208-239 | If the n-th soonest request comes too early after a forgotten one, some continuation breaks that limit, with requests of any size the budget has room for |
| `WebRestart.PaceBreaksExactly` | dmn/web.py:208-230 | Some continuation of a restart breaks the pacing exactly when the table is empty and saved clock and breaker are before the newest forgotten request plus the interval |
| `WebRestart.WindowBreaksExactly` | dmn/web.py:208-239 | Some continuation breaks a window of requests exactly when some n-th soonest request comes within it after a forgotten request that many places before |
| `WebRestart.BytesBreakExactly` | dmn/web.py:208-213 | Some continuation breaks the daily bytes exactly when forgotten rows hold bytes of the day before the first possible request |
| `WebRestart.RestartIsSafeExactly` | dmn/web.py:125-150 | All limits hold in every continuation of a restart exactly when no forgotten row can still bind one of them |
| `WebRestart.SavedForgetsNothing` | dmn/web.py:148-150 | None can when the saved clock is not before the last pruning that removed a row |
| `WebRestart.ForgottenRequest` | dmn/web.py:366-367 | Under every policy a run with an unsaved pruning and a crash ends with two requests at one moment of ledger time |
| `WebPauses.PauseIsKept` | dmn/web.py:145-150 | Over every run whose restarts find it, no request goes to a paused host before the pause ends |
| `WebPauses.BreakerIsKept` | dmn/web.py:226-230 | Once the breaker opens no request to any host is let through before its time, over every run and any restarts |
| `WebPauses.PauseBreaksExactly` | dmn/web.py:208-239 | Some continuation of a restart asks a host before a given time exactly when the stored rows, clock, breaker and host row allow it |
| `WebPauses.FoundPauseIsKept` | dmn/web.py:208-239 | A saved clock past the pause, or the host's row still in the table, is enough for no continuation to be early |
| `WebPauses.ForgottenPause` | dmn/web.py:208-239 | Under every policy a run in which a pruning for another host and a crash cancel a pause |
| `WebRequests.EveryRunIsSound` | dmn/web.py:65-74 | In every run a request is terminal exactly when it has its one event, a page is sent at most once, and the cache keeps its limits |
| `WebRequests.StepContinues` | dmn/web.py:193-206 | No step takes back an event or a transport call, and a terminal request never changes |
| `WebRequests.RunContinues` | dmn/web.py:193-222 | The same over any stretch of a run; a pruned request never returns |
| `WebRequests.ClaimKeeps` | dmn/web.py:385-394 | Claiming licenses one transport call, and never a second one for a page |
| `WebRequests.SettleKeeps` | dmn/web.py:396-454 | Booking an answer ends the request or queues it for its page, never after its page was sent |
| `WebRequests.SettleEnds` | dmn/web.py:396-454 | The answer decides the end: unknown, cancelled, waiting for its page, complete with document and links kept, or failed; every end has one event, and only a kept document evicts others |
| `WebRequests.RestartEndsInterrupted` | dmn/web.py:136-138 | A restart ends exactly the running and cancelling requests, as outcome unknown, with one event each |
| `WebRequests.MakeRoomIsLeast` | dmn/web.py:443-448 | Eviction drops oldest documents first and stops at the first suffix that leaves room |
| `WebRequests.MakeRoomLeaves` | dmn/web.py:443-448 | Eviction removes only documents and exactly the handles of the removed ones |
| `WebRequests.PruneKeeps` | dmn/web.py:217-222 | Pruning removes only delivered, old requests that back no retained document |
| `WebService.WebService.NetworkWait` | dmn/web.py:224-239 | The loop over the windows computes how long until the next request is due |
| `WebService.WebService.Claim` | dmn/web.py:345-394 | After the cancelled rows have ended, a request is claimed exactly when fewer than 16 results are undelivered and some queued row is accepted, due, within the byte budget and allowed by robots.txt with its crawl delay passed, or robots.txt is still to be asked; it is the first such row, and the rows before it end exactly for a refused policy, robots.txt or the budget |
| `WebService.WebService.ClaimRow` | dmn/web.py:356-394 | One row is claimed exactly when it may be sent, ended as failed exactly when it is refused, and else left as it was |
| `WebService.WebService.Conclude` | dmn/web.py:396-454 | Books exactly the bytes used, the host's pause and a robots.txt that was found, saves the clock, gives the request the state its answer calls for and frees the claim |
| `WebService.Evict` | dmn/web.py:443-448 | The eviction loop terminates and computes exactly the least eviction |
| `Inbox.EnqueueKeeps` | dmn/conversations.py:150-192 | Admission keeps consent, openness and both inbox limits |
| `Inbox.FreshMessageIsAdmitted` | dmn/conversations.py:182-192 | A new message of an accepted participant is admitted, as one new waiting event, exactly when both inboxes have room |
| `Inbox.FirstMessageIsHeld` | dmn/contacts.py:44-69 | The first message of somebody unknown is held as a pending request, and is no event, exactly when there is room |
| `Inbox.RefusedMessages` | dmn/conversations.py:137-149 | Unknown and closed conversations and blocked participants are refused, as is anything more from somebody not accepted |
| `Inbox.UsedKeysAreAnswered` | dmn/conversations.py:167-181 | A used key answers only its own message, unchanged; any other content, sender or conversation, and a discarded message, are refused |
| `Inbox.RegistersOnce` | dmn/conversations.py:95-109 | A conversation belongs to whoever registered it first, and at most 128 are registered |
| `Inbox.RetryAddsNothing` | dmn/conversations.py:164-181 | Repeating an accepted submission changes nothing, before and after consent |
| `Inbox.RetryAfterRelease` | dmn/contacts.py:101-107 | The released first message is the one that was held: retrying its submission is recognised and adds nothing |
| `Inbox.PublishAll` | dmn/conversations.py:249-279 | The transaction publishes deliveries first, then all effects, or changes nothing |
| `Inbox.ReleaseKeeps` | dmn/contacts.py:101-107 | Releasing held input on acceptance keeps the totals and creates the first input of that participant |
| `Inbox.SilenceKeeps` | dmn/conversations.py:272-277 | Closing or blocking suppresses all undelivered input and discards held input |
| `Inbox.EffectKeeps` | dmn/contacts.py:92-110 | Every contact effect keeps consent, openness and limits |
| `InboxEffects.EffectsMeet` | dmn/conversations.py:249-279 | After a committed list of effects every conversation is closed, every participant blocked, answered and held exactly as the last effect concerning them says, released messages are the ones that were held, and only stopped input is suppressed |
| `InboxEffects.EffectsApplyExactly` | dmn/contacts.py:92-110 | The list commits exactly when each effect can be applied after those before it |
| `Delivery.Runtime.Pick` | dmn/conversations.py:194-199 | Finds the first event after the cursor that is not suppressed |
| `Delivery.Runtime.EnterPicked` | dmn/runtime.py:819-829 | The picked event enters, at the end of the sequence and as the new cursor, exactly if it is still admissible; otherwise nothing but the picking is undone |
| `Delivery.Runtime.SaveCheckpoint` | dmn/runtime.py:1488-1493 | Succeeds exactly when every effect can be applied; then cursor and sequence are saved, exactly the unpublished events are newly delivered, nothing is left unpublished and the directory is what the effects say; otherwise nothing changes |
| `Delivery.RefusedMeansSuppressed` | dmn/conversations.py:205-212 | The recheck refuses a picked input exactly when it has been suppressed, so refusal is never repeated for ever |
| `Delivery.EveryRunIsSound` | dmn/runtime.py:1709-1729 | Over every run with crashes, blocks, closes and reopenings the sequence holds exactly the unsuppressed events up to the cursor, in order, and each event up to the committed cursor is delivered or suppressed, never both |
| `Delivery.RunContinues` | dmn/contacts.py:92-110 | Over any stretch of a run acceptance is permanent, held input is released or discarded once and for good, and no input, delivery or suppression is taken back |
| `Delivery.EverythingEnters` | dmn/runtime.py:1709-1729 | As many rounds as there are events bring every unsuppressed event into the sequence, in order |
| `Delivery.AnnouncedEventEnters` | dmn/runtime.py:1709-1729 | A host event that is enqueued enters after everything before it |
| `Delivery.CrashLosesNothing` | dmn/runtime.py:1709-1729 | From any state a crash changes neither the directory nor what finally enters, and the next checkpoint leaves no input waiting |
| `DeepSleep.EveryRunIsSound` | dmn/deep_sleep.py:204-387 | For every placement of deaths: candidate work launched at most once, at most one wake published per run and directly on its source, no failure adopts, one unfinished run, one run per plan |
| `DeepSleep.PublishKeeps` | dmn/deep_sleep.py:279-292 | The publication's source check never fails, and the published slot holds the reported outcome |
| `DeepSleep.BeginKeeps` | dmn/sleep_plans.py:393-402 | A run begins only when none is unfinished, for an approved plan, which it uses up |
| `DeepSleep.BeginExactly` | dmn/sleep_plans.py:393-402 | Deep sleep begins exactly for an approved plan when every run is committed; it adds the source checkpoint and one run and marks the plan executing |
| `DeepSleep.DecideExactly` | dmn/sleep_plans.py:384-391 | A review decision changes exactly the status of a plan that has not begun |
| `DeepSleep.CompileExactly` | dmn/sleep_plans.py:379-383 | A compiled plan that is new awaits review; a known one keeps its status |
| `DeepSleep.RunContinues` | dmn/deep_sleep.py:267-277 | Phases only move forward, finished runs never change, checkpoints are only added |
| `DeepSleep.ProcessFinishes` | dmn/deep_sleep.py:204-387 | A resumed transition that is not killed ends, at `WakeCommitted` or `Stopped` exactly when its last step is not the failed writing of the failure itself |
| `DeepSleep.SleepWakesExactly` | dmn/deep_sleep.py:204-387 | A transition that is opened outside the failure policy ends in the planned wake exactly when its candidate can be had, its slot is usable and every step its road needs succeeds; then the plan's slot is published with the plan's outcome, the checkpoints gain exactly that wake, and the plan is completed |
| `DeepSleep.RoadDecides` | dmn/deep_sleep.py:304-382 | The same from every point of the transition |
| `DeepSleep.DeathIsResumed` | dmn/deep_sleep.py:204-265 | A death at any point leaves the same run to be resumed; if all later steps succeed it wakes as planned exactly when the candidate can be had and the slot is usable |
| `DeepSleep.ProceedPublishes` | dmn/deep_sleep.py:279-292 | A process that is not killed adds at most one checkpoint, and does so exactly when it commits a wake |
| `DeepSleep.FailureWakesExactly` | dmn/deep_sleep.py:294-302 | A failure wakes the previous state exactly when the plan asks for it, the slot is not taken by a review wake, and copy and publication succeed; otherwise it stops, unless that cannot be written |
| `DeepSleep.ReviewWakeBlocksPrevious` | dmn/deep_sleep.py:294-302 | From the initial state, a plan that asks to wake the previous state stops although the copy would succeed |
| `DeepSleep.RunFixtureSleep` | dmn/deep_sleep.py:304-382 | The transition as written refines the step machine |
| `DeepSleep.ApplyFailurePolicy` | dmn/deep_sleep.py:294-302 | The failure choice as written refines the step machine |
| `Bridge.AttachMessage` | dmn/bridge.py:102-146 | Attaching answers exactly: unchanged for a known delivery, placed in an empty placeholder or a new child otherwise, refused for edits, broken selections, collisions and broken ancestry |
| `Bridge.Walk` | dmn/bridge.py:138-144 | The ancestry loop computes the path to the root, or refuses a cycle or a missing parent |
| `Bridge.WalkedIsPath` | dmn/bridge.py:138-145 | The rebuilt message list is the path from the root to the selected node |
| `Bridge.PlacedStaysAcyclic` | dmn/bridge.py:117-136 | Placing a message keeps the parent relation acyclic |
| `Bridge.MessageIsListed` | dmn/bridge.py:122-135 | A new node carries the message and is listed under the selected one, a reused placeholder keeps its parent, and no other node changes but for that listing |
| `Bridge.AnswerMeans` | dmn/bridge.py:102-146 | Success leaves the message's text in a node that delivers it, anew exactly when none did and then selected at the end of the projected path; another text for a delivered message is refused; a new message is never refused in an acyclic tree with a valid selection and a free name |
| `Bridge.NoChildLostExactly` | dmn/bridge.py:122-135 | No node loses a child exactly when no placeholder is reused or the reused one has no children |
| `Bridge.LinksKeptExactly` | dmn/bridge.py:122-135 | Child lists and parent names stay in agreement under exactly that condition |
| `Bridge.PlaceholderLosesItsChild` | dmn/bridge.py:122-130 | A placeholder with a child is accepted; afterwards it lists nothing and the child still names it |
| `Relay.NewMessageIsAccepted` | dmn/bridge.py:117-146 | In a sound tree a new message is always accepted |
| `Relay.RepeatChangesNothing` | dmn/bridge.py:111-116 | Attaching the same message again changes nothing |
| `Relay.EveryRunIsSound` | dmn/openwebui.py:154-169 | With crashes anywhere and the frontend editing meanwhile, a prefix of the outbox is in the chat, each message in exactly one node and in ID order, and the cursor never passes an unplaced one |
| `Relay.RelayOnce` | dmn/openwebui_multi.py:312-334 | An uninterrupted pass persists and then passes every fetched message |
| `Relay.DeathResumes` | dmn/openwebui.py:154-169 | A death before the cursor moved leaves the same message first in line |
| `Memories.MemoryStore.Commit` | dmn/storage.py:160-185 | Succeeds exactly when the change names the revision the memory has and a move has a source and a free destination; then what was written is stored and readable under the next revision, what was deleted is gone, what was moved is only at its destination, and every other memory is as it was; otherwise nothing changes |
| `Memories.CommitMeans` | dmn/storage.py:160-185 | The same of the specification, for every store whose revisions have no gaps |
| `Memories.MemoryStore.ArchiveMemory` | dmn/storage.py:223-229 | Appends the version numbered one above the path's maximum |
| `Memories.RevisionsAscend` | dmn/storage.py:223-229 | Later versions of a path carry larger numbers |
| `Memories.RevisionExists` | dmn/storage.py:223-229 | Every number from 1 to the count of versions exists |
| `Memories.CommitKeeps` | dmn/storage.py:160-185 | Every effect keeps the numbering and the live map equal to the last versions |
| `Memories.ReplacedContentIsReadable` | dmn/storage.py:242-250 | What a memory held before a write, move or delete stays readable under the revision it had |
| `Memories.MoveBackRestores` | dmn/storage.py:180-185 | Moving a memory away and back restores every live memory |
| `Memories.EveryRunIsSound` | dmn/runtime.py:1300-1308 | In every run each change of a live memory follows a read of exactly that revision since the latest retirement |
| `Memories.ChangeTakesEffect` | dmn/runtime.py:1280-1308 | A change takes effect, and is saved at once, exactly when the store accepts it and the current revision was read; otherwise nothing changes |
| `Memories.CrashGoesBack` | dmn/runtime.py:1709-1729 | Until the next save a crash takes grants and sequence back to the last one |
| `Memories.GrantMeansContentExactly` | dmn/runtime.py:1085-1089 | After a read that grants replacement the whole content has been in the sequence exactly when what this page did not deliver had been read before |
| `Memories.UnreadReplacementIsPermitted` | dmn/runtime.py:1085-1089 | A page past the end grants the replacement of a memory of which nothing has entered since the retirement |
| `Memories.VersionsArePermanent` | dmn/storage.py:223-250 | No step, a crash included, alters or removes an archived version |
| `Review.FitPage` | dmn/sleep_plans.py:267-283 | The halving loop ends with a limit that fits, or with none |
| `Review.EveryRunIsSound` | dmn/runtime.py:1071-1076 | Under any reads, skips, shrinking, saves and rollbacks the credited offset ends a fully delivered prefix, and an approved plan was delivered in full |
| `Review.DefaultReadsReachTheEnd` | dmn/sleep_plans.py:341-352 | Complete reads at the default offset reach the end of the text |
| `Review.CreditFollowsPages` | dmn/runtime.py:1071-1076 | Credit moves, to the page's end, exactly for a complete page of a current plan that meets what was read before |
| `Review.ReadPlanIsApproved` | dmn/sleep_plans.py:305-322 | A plan read to its end at the default offset is approved, also when the process restarts in between |
| `Pacer.ActivityPacer.SelectProfile` | dmn/activity.py:34-41 | A deliberate choice starts with a full burst, a restored one with none and a full wait |
| `Pacer.ActivityPacer.IsReady` | dmn/activity.py:43-49 | Opens a new burst only when the last one is used up and its interval has passed |
| `Pacer.ActivityPacer.TokenConsumed` | dmn/activity.py:51-55 | Charges a token and schedules the next burst when none is left |
| `Pacer.WindowIsBounded` | dmn/activity.py:34-55 | Under one idle profile, restarts and timer wakes included, a window holds at most burst*(floor(width/interval)+1) tokens, and less than an interval at most one burst |
| `Pacer.ChoiceGivesItsBurst` | dmn/activity.py:34-55 | A deliberate choice lets a full burst through at once, a restored one nothing before its interval is over and a full burst then; in focus nothing waits |
| `Pacer.BurstIsGenerated` | dmn/activity.py:43-55 | What is left of a burst is generated without waiting, and the next one is due an interval after its last token |
| `TopK.TopIsPrefix` | dmn/backend.py:32-42 | For every k the selection is the first k of the full stable descending sort, ties at the boundary included |
| `TopK.CutoffExists` | dmn/backend.py:36 | The partition value exists: it is the score of the k-th position of the full order |

## Left out

- Runtime.Runtime.GenerateOne: a token that both completes an action and ends generation inside another frame inserts two events; the headroom results are stated for one insertion per token, as `Runtime.OneInsertion` says.
- Runtime.Runtime.AppendEvent: shortening of event texts to the budget is an input condition; images and attachments are not modelled.
- WebRestart.BytesBreakExactly: a request may reserve any size up to the budget; the code reserves at most its body limit, so there the condition is necessary, and sufficient when that limit is at least what the table leaves of the budget.
- WebRequests.SettleKeeps: the table of cached robots.txt answers has no expiry or size limit in the model, and duplicate links of one page are one handle.
- WebService.WebService.Claim: the URL policy, the policy revision and the robots.txt rules are uninterpreted; the queue order is the caller's.
- WebPauses.PauseBreaksExactly: the continuation's request is of any size the budget has room for, and no earlier result of the same URL answers it.
- WebRates.AdmitKeeps: the repeat breaker's attempt history and the reuse of a recent result for the same URL are not modelled; the breaker is any later time, and reuse sends nothing.
- Delivery.EverythingEnters: when the scheduler offers an event (protected actions, the pacing of input by generated tokens, sleep, a stop request) is not modelled; a round is one event that is offered.
- Inbox.EffectKeeps: that a decision names the current request revision and that the request was delivered are checked when the action is planned, which is not modelled; nor are instances that run without first-contact consent, unblock requests, display names and images.
- DeepSleep.EveryRunIsSound: candidate, recovery, validation and wake are success or failure; report contents, disk checks and the file formats of slots are not modelled, and a write that fails leaves nothing behind.
- DeepSleep.RunFixtureSleep: modelled on values: the durable row is a store passed from step to step, and deaths are only in the step machine.
- Relay.EveryRunIsSound: one conversation, in which the frontend does not edit delivered nodes; the per-chat failure bookkeeping, presence reports, notifications and legacy adoption are left out.
- Review.EveryRunIsSound: whether a plan is current is an input of each read and restart.
- CacheCompactor.CompactState: the refusal to overwrite an existing destination, and a source that changes while it is read.
- ActionParser.StreamTheorem: a frame yields its raw bytes; JSON parsing of them is not part of this model.
- Memories.EveryRunIsSound: a read is any page of the revision, as in the code; of a result too long for the event budget the preview counts as nothing shown.
- Activity intents, prompt proposals, maintenance and permanent end, holds, attachments, chat adoption, learning drafts and recipes: validation and bookkeeping that would add only easy members.
- Agreement records enter through the same insertion path as events; their own headroom check is not modelled.
- llama.cpp, Torch, sampling, TLS, HTTP servers, Open WebUI hooks, GPU supervision and training workers: foreign or I/O code.
