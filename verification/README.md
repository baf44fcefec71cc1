# Verified model of the WOS-SFC alliance tool

A Dafny model of the parts of the server and the web client that keep invariants over time, with proofs about them.
Each part has a model of values (states, events, a step function), proofs about every run, and a class or methods in
the source's own form whose contracts tie them to the model. Nothing here runs the original program.

| part | files |
|---|---|
| chat translation on the client: waits, candidates, the request in flight, retries | ChatStoreModel, TranslationModel, TranslationInvariants, TranslationSteps, TranslationReplies, TranslationSync |
| upload quota with shared, versioned disk scans | UploadQuotaModel, UploadQuotaInvariants, UploadQuotaExact, UploadQuota, MapSum |
| SQL splitter: two lexers, a token grammar, round trips | SqlLexer, SqlTokens, SqlRoundTrip, SqlPieces, SqlEmission, SqlStatements, Whitespace |
| countdown protocol over the busy lock | BusyLockModel, CountdownModel, CountdownInvariants, CountdownSteps, CountdownService |
| login throttle | LoginThrottleModel, LoginThrottleInvariants, LoginThrottleSteps, LoginThrottle, SlidingWindow, Sorting |
| rally order, display order and fire schedule | RallyModel, RallyInvariants, RallyIndex, RallySteps, RallySchedule, RallyMembers, RallyGroups, Numbering |
| clock synchronisation | ClockModel, ClockBounds, ClockSteps, ClockSync |
| translation engine and queue | TranslateEngineModel, TranslateEngineProofs, TranslateAnswers, BatchAnswers, BatchRequest, TranslateEngine, TranslationQueue |
| TTS cache plan | TtsCacheModel, TtsCacheProofs, TtsSpeech, TtsCache |
| countdown audio slots | PlayerModel, PlayerInvariants, PlayerSteps, CountdownPlayer |

`dafny verify dfyconfig.toml` checks the whole project.

## Findings

- A statement piece that ends with a bare `--` is dropped although the cutting lexer did not see a comment there
  (`SqlPieces.DroppedPieces`, `SqlPieces.BareDashesVanish`).
- The holder check after the countdown probe looks at the type only, so a start that was stopped during its probe
  comes back when another start holds the lock (`CountdownInvariants.LostStartTakesOver`, `StoppedStartComesBack`).
- The last freshness test and the admission test of a reservation are separated by an await, and a release between the
  two can let the admission exceed the quota: `UploadQuotaInvariants.AdmitLaterExceeds` is a run of 5 MiB photos, and
  `AdmitLaterIsSafe` says exactly when a later admission is safe. The two tests are one step in the other runs.
- The new TTS meta is written even when an unlink failed, and such a stale file then stays as long as the settings do
  not change again (`TtsCacheProofs.LostExactlyWhenUnlinkFails`, `LostStays`, `StaleFileStays`).
- The lock's automatic release comes 5000 ms plus the shortest march after the last fire, less the time between the
  acquisition and the start stamp: the 5000 ms are missed when that time is longer than the shortest march
  (`RallySchedule.ReleaseAfterLastFire`), as with a march of 0 and one millisecond (`MarginFallsShort`).
- A batch call's budget is lowered by the cap exactly when the call is for a single item of more than 560 UTF-16 units
  (`TranslateEngineProofs.BatchCallsLowered`). The limit of 500 characters does not exclude such items, as a surrogate pair
  and a unit with its variation selector each count as one: an accepted text has up to 1500 units
  (`BatchRequest.AcceptedLowered`, `LongestText`), and `PairsLowerBudget` and `SelectorsLowerBudget` are texts with letters
  that are asked for with too little. A single target's budget is never lowered (`CallsAndBudgets`).

## Model

| member | source | states |
|---|---|---|
| TranslationInvariants.NoOrphanedMark | web/src/chat/translationSync.js:136-383 | in every run of connect, history, message, push, language, toggle, scroll, retry, timer, reply and store events, an id marked pending has its text in the reader's language or is in a push wait, the candidates, the request in flight or a retry timer |
| TranslationInvariants.CandidatesAreServed | web/src/chat/translationSync.js:109-210 | in every run waiting candidates have a request in flight or an armed batch timer; the candidate list has no duplicate, equals its set and shares no id with the request |
| TranslationInvariants.RequestsAreSpaced | web/src/chat/translationSync.js:116-191 | in every run, resets included, requests are at least 1000 ms apart and each carries at most 20 items and 2000 characters, or a single item |
| TranslationInvariants.ThreeTries | web/src/chat/translationSync.js:251-275 | a failed id is retried after 10 s, then 30 s, or after the provider's own wait; the third failure marks it failed and ends its pending mark, and no other id is touched |
| TranslationInvariants.AtMostTwoRetries | web/src/chat/translationSync.js:251-263 | in every run no id has more than two retries behind it |
| TranslationInvariants.TakeBatchQueue | web/src/chat/translationSync.js:156-181 | taking a batch keeps the queue duplicate-free and equal to its set, what is taken leaves it and keeps within the limits, and nothing is taken only from a queue that runs empty |
| TranslationInvariants.TakeBatchMarks | web/src/chat/translationSync.js:156-181 | a batch takes only eligible candidates, and every one it passes over for good loses its pending mark |
| TranslationInvariants.CollectPlaces | web/src/chat/translationSync.js:136-153 | every id that joins the candidates is eligible, new, and no longer in a push wait |
| TranslationInvariants.EnqueueKeeps | web/src/chat/translationSync.js:136-153 | enqueueing keeps every invariant |
| TranslationInvariants.ScheduleRetriesKeeps | web/src/chat/translationSync.js:251-263 | each failed id ends up in a retry timer or loses its mark |
| TranslationInvariants.OnReplyKeeps | web/src/chat/translationSync.js:193-248 | a reply, good, bad or late, keeps every invariant |
| TranslationInvariants.OnPushedKeeps | web/src/chat/translationSync.js:352-383 | a pushed translation, failure or empty push keeps every invariant |
| TranslationInvariants.StoreReplacedKeeps | web/src/store/index.js:137-158 | a new message list with pruned records keeps every invariant |
| TranslationInvariants.AnswersReachStore | web/src/chat/translationSync.js:212-236 | every text a reply brings for the request is in the store afterwards, in the request's language |
| TranslationInvariants.NewestAreScanned | web/src/chat/translationSync.js:278-285 | a scan takes at most 50 messages, and every eligible one with fewer than 50 eligible ones behind it |
| TranslationInvariants.StepKeeps | web/src/chat/translationSync.js:136-430 | every event keeps every invariant |
| TranslationInvariants.RunKeeps | web/src/chat/translationSync.js:136-430 | every run keeps every invariant |
| ChatStoreModel.MergeKeeps | web/src/store/index.js:120-134 | merging never takes a language away from an id |
| ChatStoreModel.MergeAdds | web/src/store/index.js:120-134 | after a merge an id has a language exactly when it had it or an entry brought a string for it |
| ChatStoreModel.LastTextStays | web/src/store/index.js:120-134 | the last string brought for an id and a language is the text kept |
| ChatStoreModel.MergeLeaves | web/src/store/index.js:120-134 | what no entry brings stays as it was, text and all |
| TranslationSteps.RestartQueuesNewest | web/src/chat/translationSync.js:277-321 | after a connection, a new language or a turned switch: the queue is exactly the wanted messages with fewer than 50 wanted ones behind them, in the order of the list, all marked and nothing else marked; the timer is due at max(now, lastRequestAt) + 1000; every other wait is gone; only a connection keeps the failures |
| TranslationSteps.HistoryQueuesNewest | web/src/chat/translationSync.js:323-333 | a history ends the push waits whose text has come and adds exactly the newest wanted messages that are not requested, marked, with a timer within the second |
| TranslationSteps.RecentIsNewest | web/src/chat/translationSync.js:278-285 | a scan takes a message exactly when it is wanted and fewer than 50 wanted ones stand behind it |
| TranslationSteps.AskedIsQueued | web/src/chat/translationSync.js:407-422 | a scroll, a manual retry and the end of a wait queue and mark exactly what they ask for and is wanted; a request goes out at once when one may, and is otherwise in flight or due at the soonest moment |
| TranslationSteps.BatchTimerSends | web/src/chat/translationSync.js:129-191 | the timer sends what is wanted in a prefix of the queue, ending only with the queue or before what would be the 21st item or go over 2000 characters; an unwanted candidate loses its mark |
| TranslationSteps.CollectGrows | web/src/chat/translationSync.js:136-149 | exactly the ids of the list that are wanted, new and not requested join the queue, in the order of the list, and leave their push waits |
| TranslationSteps.TakeBatchTakes | web/src/chat/translationSync.js:156-181 | taking a batch is cutting a prefix off the queue and keeping what is wanted of it |
| TranslationReplies.MessageWaits | web/src/chat/translationSync.js:335-350 | a wanted message is marked and waits 15,000 ms; any other message changes nothing |
| TranslationReplies.PushArrives | web/src/chat/translationSync.js:352-383 | the strings of a push are in the store and no other text changes; a text in the reader's language ends every wait of its id, a failure is tried again after 15,000 ms, an empty push ends the mark |
| TranslationReplies.AnswerSettles | web/src/chat/translationSync.js:193-236 | after a reply each id it translates has that very text and is done, each id it says nothing of is done, each id it reports as failed has failed once more |
| TranslationReplies.AnswerLeavesOtherTexts | web/src/chat/translationSync.js:212-236 | a reply changes no text but those of its request's ids in its request's language |
| TranslationReplies.RejectionRetries | web/src/chat/translationSync.js:238-263 | after a failed request each of its ids is tried again after 10 s or 30 s, after a 429 when the server said or after 10 s, and has failed for good the third time |
| TranslationReplies.LateReplyIgnored | web/src/chat/translationSync.js:195-205 | a reply to a superseded request changes nothing |
| TranslationReplies.ReplacedStore | web/src/store/index.js:137-158 | a new message list keeps exactly the marks and texts of its ids, and the last text brought counts |
| TranslationReplies.DisposeEnds | web/src/chat/translationSync.js:424-429 | nothing is queued, marked or waited for any more |
| TranslationReplies.QueueIsServedSoon | web/src/chat/translationSync.js:116-134 | in every run with a clock that does not run backwards, queued ids wait for the request in flight or for a timer due within 1000 ms |
| TranslationSync.ChatStore.MergeTranslationMap | web/src/store/index.js:120-134 | the loop merges entry by entry, strings only |
| TranslationSync.ChatStore.WithoutKeys | web/src/store/index.js:160-172 | the loop removes exactly the given ids |
| TranslationSync.ChatStore.ReplaceMessages | web/src/store/index.js:273-298 | new messages, merged translations, and all three records pruned to the ids that remain |
| TranslationSync.ChatStore.MergeChatTranslationsBulk | web/src/store/index.js:304-310 | translations merged, nothing else changed |
| TranslationSync.ChatStore.MarkTranslationPending | web/src/store/index.js:311-317 | exactly these ids become pending |
| TranslationSync.ChatStore.ClearTranslationPending | web/src/store/index.js:318-323 | exactly these ids stop being pending |
| TranslationSync.ChatStore.ClearAllPending | web/src/store/index.js:318-323 | a null list ends every mark |
| TranslationSync.ChatStore.MarkTranslationFailed | web/src/store/index.js:324-331 | the id becomes failed and stops being pending |
| TranslationSync.ChatStore.ClearTranslationFailed | web/src/store/index.js:332-335 | the id stops being failed |
| TranslationSync.ChatStore.ResetTranslationStatus | web/src/store/index.js:336-337 | no id is pending or failed |
| TranslationSync.Sync.IsEligible | web/src/chat/translationSync.js:84-91 | a message in the store, translatable, without a text in the reader's language |
| TranslationSync.Sync.DropCandidate | web/src/chat/translationSync.js:109-114 | the id leaves list and set, the others keep their order |
| TranslationSync.Sync.TakeItems | web/src/chat/translationSync.js:156-181 | the while loop takes the batch the model takes |
| TranslationSync.Sync.SendBatch | web/src/chat/translationSync.js:183-191 | a request goes out with the batch, or nothing happens |
| TranslationSync.Sync.Schedule | web/src/chat/translationSync.js:116-134 | sends now, arms the timer, moves it earlier, or leaves it |
| TranslationSync.Sync.CollectIds | web/src/chat/translationSync.js:136-149 | the loop of enqueue; the ids added are exactly the new candidates |
| TranslationSync.Sync.EnqueueIds | web/src/chat/translationSync.js:136-153 | collect, mark, schedule |
| TranslationSync.Sync.Reenqueue | web/src/chat/translationSync.js:265-275 | one retry timer for the id, replacing an older one |
| TranslationSync.Sync.RetryOne | web/src/chat/translationSync.js:252-262 | one turn of the retry loop |
| TranslationSync.Sync.RetryLater | web/src/chat/translationSync.js:251-263 | the retry loop over a list |
| TranslationSync.Sync.SettleItems | web/src/chat/translationSync.js:212-236 | texts merged, settled ids cleared, failed ids retried |
| TranslationSync.Sync.HandleReply | web/src/chat/translationSync.js:193-210 | reply handlers and the finally handler of the request in flight; a superseded request is ignored |
| TranslationSync.Sync.Scan | web/src/chat/translationSync.js:278-285 | the newest 50 eligible messages are enqueued |
| TranslationSync.Sync.Reset | web/src/chat/translationSync.js:287-303 | all waits, timers, the request and the queue are gone; the time of the last request stays |
| TranslationSync.Sync.HandleConnect | web/src/chat/translationSync.js:312-321 | as the model's connect event |
| TranslationSync.Sync.DropArrivedWaits | web/src/chat/translationSync.js:326-331 | push waits whose text came with the history end |
| TranslationSync.Sync.HandleHistory | web/src/chat/translationSync.js:323-333 | as the model's history event |
| TranslationSync.Sync.HandleMessage | web/src/chat/translationSync.js:335-350 | as the model's message event |
| TranslationSync.Sync.EndWaits | web/src/chat/translationSync.js:364-370 | a text that arrived ends every wait of its id |
| TranslationSync.Sync.HandlePushed | web/src/chat/translationSync.js:352-383 | as the model's push event |
| TranslationSync.Sync.HandleLanguageChange | web/src/chat/translationSync.js:385-394 | as the model's language event |
| TranslationSync.Sync.HandleAutoTranslateChange | web/src/chat/translationSync.js:396-405 | as the model's toggle event |
| TranslationSync.Sync.HandleScrolledToOlder | web/src/chat/translationSync.js:407-414 | as the model's scroll event |
| TranslationSync.Sync.HandleRetry | web/src/chat/translationSync.js:416-422 | as the model's retry event |
| TranslationSync.Sync.HandleDispose | web/src/chat/translationSync.js:424-429 | as the model's dispose event |
| TranslationSync.Sync.PushTimerFires | web/src/chat/translationSync.js:345-348 | the push wait ends and the id is enqueued |
| TranslationSync.Sync.RetryTimerFires | web/src/chat/translationSync.js:270-273 | the retry timer ends and the id is enqueued |
| TranslationSync.Sync.BatchTimerFires | web/src/chat/translationSync.js:130-133 | the batch timer ends and a batch runs |
| UploadQuotaInvariants.QuotaNeverExceeded | server/src/boards/board-upload-quota.service.ts:90-170 | in every interleaving of reserve, release, invalidate, shared scans, writes and deletions, finished bytes plus live reservations stay within 1 GiB, and so does everything on the disk |
| UploadQuotaInvariants.GrantRestsOnLaterScan | server/src/boards/board-upload-quota.service.ts:90-170 | a grant rests on a scan that began after the last invalidation |
| UploadQuotaInvariants.DiskWithinBooks | server/src/boards/board-upload-quota.service.ts:90-121 | all bytes on disk, partial uploads included, are finished or reserved |
| UploadQuotaInvariants.AdmitKeeps | server/src/boards/board-upload-quota.service.ts:91-111 | admission right after the freshness test keeps the quota |
| UploadQuotaInvariants.ReleaseKeeps | server/src/boards/board-upload-quota.service.ts:113-121 | a release that ends an upload keeps the quota |
| UploadQuotaInvariants.ListRootKeeps | server/src/boards/board-upload-quota.service.ts:144-168 | the root listing, asked for after the version was read, leads the scan to every file there is |
| UploadQuotaInvariants.ReadFileKeeps | server/src/boards/board-upload-quota.service.ts:181-197 | counting one file keeps the running sum an upper bound of what has been seen |
| UploadQuotaInvariants.EnterDirectoryKeeps | server/src/boards/board-upload-quota.service.ts:159-189 | opening a nested directory keeps that bound |
| UploadQuotaInvariants.LeaveDirectoryKeeps | server/src/boards/board-upload-quota.service.ts:159-189 | adding up a nested directory keeps that bound, early exits included |
| UploadQuotaInvariants.CompleteScanKeeps | server/src/boards/board-upload-quota.service.ts:167-170 | a finished scan never measures less than the finished bytes, unless it is over the quota or already outdated |
| UploadQuotaInvariants.WriteKeeps | server/src/boards/board-upload-quota.service.ts:107-121 | an upload writing within its reservation keeps every invariant |
| UploadQuotaInvariants.DeleteKeeps | server/src/boards/board-upload-quota.service.ts:123-128 | a deletion keeps every invariant |
| UploadQuotaInvariants.StepKeeps | server/src/boards/board-upload-quota.service.ts:90-189 | every event keeps every invariant |
| UploadQuotaInvariants.ScansBegan | server/src/boards/board-upload-quota.service.ts:130-170 | every measurement has a beginning at which its version was the current one |
| UploadQuotaInvariants.AdmitLaterKeeps | server/src/boards/board-upload-quota.service.ts:91-111 | an admission test run some time after the freshness test keeps every invariant if nothing was invalidated in between |
| UploadQuotaInvariants.AdmitLaterIsSafe | server/src/boards/board-upload-quota.service.ts:91-111 | exactly when: given the service's fields, an admission test alone keeps every invariant, whatever is on the disk, if and only if the bytes do not fit, are none, or the measurement is of the current version |
| UploadQuotaInvariants.AdmitLaterExceeds | server/src/boards/board-upload-quota.service.ts:91-121 | an allowed run from a disk within its quota: two 5 MiB photos are reserved, one is written and released after the other's freshness test, and the admission that follows brings the total 5 MiB over the quota |
| UploadQuotaExact.StillDiskIsMeasured | server/src/boards/board-upload-quota.service.ts:130-189 | a scan of a disk that keeps still, its listings complete and without repetitions, measures exactly the bytes on the disk when they are within 1 GiB and more than 1 GiB otherwise; on that measure a request is granted exactly when it fits beside them and the live reservations |
| UploadQuotaExact.RequestGranted | server/src/boards/board-upload-quota.service.ts:91-111 | in every run a request is granted exactly on a measure of the current version less than 5000 ms old beside which it fits with the sum of the live reservations; otherwise nothing changes |
| UploadQuotaExact.ReleaseFrees | server/src/boards/board-upload-quota.service.ts:113-121 | a release takes exactly its bytes off the reservations, outdates every measure and running scan, and no request is granted right after it |
| UploadQuotaExact.ReadFileExact | server/src/boards/board-upload-quota.service.ts:181-197 | counting one file keeps the sums equal to the sizes seen, none read twice |
| UploadQuotaExact.EnterDirectoryExact | server/src/boards/board-upload-quota.service.ts:159-189 | opening a directory does |
| UploadQuotaExact.LeaveDirectoryExact | server/src/boards/board-upload-quota.service.ts:159-189 | adding up a directory does, early exits included |
| UploadQuota.BoardUploadQuotaService.NeedsRefresh | server/src/boards/board-upload-quota.service.ts:131-134 | the loop condition is the negation of freshness |
| UploadQuota.BoardUploadQuotaService.Reserve | server/src/boards/board-upload-quota.service.ts:92-111 | granted exactly when measured, reserved and requested bytes fit; a refusal changes nothing |
| UploadQuota.BoardUploadQuotaService.ReleaseReservation | server/src/boards/board-upload-quota.service.ts:113-121 | an unknown or missing token changes nothing; otherwise the reservation goes and the measurement is invalidated |
| UploadQuota.BoardUploadQuotaService.InvalidateMeasure | server/src/boards/board-upload-quota.service.ts:125-128 | next version, scan time cleared |
| UploadQuota.BoardUploadQuotaService.BeginScan | server/src/boards/board-upload-quota.service.ts:135-140 | a new scan, with the version of the moment, only when none is running |
| UploadQuota.BoardUploadQuotaService.ReceiveRoot | server/src/boards/board-upload-quota.service.ts:144-168 | the root listing becomes the first directory of the scan |
| UploadQuota.BoardUploadQuotaService.FinishScan | server/src/boards/board-upload-quota.service.ts:167-170 | bytes and version of the scan; the time only if the version is still current |
| UploadQuota.ScanDirectory | server/src/boards/board-upload-quota.service.ts:172-189 | the summation loops with their early exits: exact up to the quota, and over it exactly when the directory is |
| SqlRoundTrip.SplitOfStatement | server/src/database/sql-statements.ts:15-110 | splitting an emitted statement gives exactly that statement |
| SqlRoundTrip.SplitOfJoin | server/src/database/sql-statements.ts:15-110 | splitting the emitted list joined with newline-semicolon gives the same list |
| SqlRoundTrip.PiecesJoin | server/src/database/sql-statements.ts:15-91 | the raw pieces joined by semicolons are the input |
| SqlRoundTrip.SplitGivesStatements | server/src/database/sql-statements.ts:15-110 | every emitted statement is kept, trimmed and uncut, and all but the last are closed by a newline and a semicolon whatever follows |
| SqlRoundTrip.Truncate | server/src/database/sql-statements.ts:26-88 | a text without a cut has none after its end is cut off |
| SqlRoundTrip.NewlineCuts | server/src/database/sql-statements.ts:26-88 | where a semicolon after trailing white space cuts, so does one after a line break |
| SqlTokens.TokenizeReads | server/src/database/sql-statements.ts:22-88 | every text has a well-formed reading in the token grammar that prints as the text |
| SqlTokens.ReadingIsUnique | server/src/database/sql-statements.ts:22-88 | and every well-formed reading is that one |
| SqlTokens.StayInLine | server/src/database/sql-statements.ts:53-59 | the lexer stays in a line comment exactly as long as the grammar says |
| SqlTokens.StayInBlock | server/src/database/sql-statements.ts:61-69 | the same for block comments |
| SqlTokens.StayInQuotes | server/src/database/sql-statements.ts:71-86 | the same for quoted texts with escapes and doubled quotes |
| SqlPieces.CutsAreSeparators | server/src/database/sql-statements.ts:22-91 | a semicolon cuts exactly when it is a token outside quotes and comments: the pieces are what stands between those tokens |
| SqlPieces.DroppedPieces | server/src/database/sql-statements.ts:100-181 | a piece is dropped exactly when all its tokens are white space or comments other than `/*!`, or when, trimmed, it ends with a bare `--` and holds nothing else to execute |
| SqlPieces.KeptHasCode | server/src/database/sql-statements.ts:100-181 | a trimmed piece is kept exactly when some token of its own reading is to be executed |
| SqlPieces.StripsToSpace | server/src/database/sql-statements.ts:113-181 | stripping leaves white space only exactly when every token is white space or a skipped comment |
| SqlPieces.PieceReads | server/src/database/sql-statements.ts:22-91 | a piece read alone is its group of tokens, except that `--` at its end becomes a comment |
| SqlPieces.TrailingSpaceStrips | server/src/database/sql-statements.ts:113-181 | white space cut off the end hides nothing to execute unless it stood behind two bare dashes |
| SqlPieces.BareDashesVanish | server/src/database/sql-statements.ts:122-126 | the input `--;`: two dash tokens, no statement emitted |
| SqlEmission.StatementsArePieces | server/src/database/sql-statements.ts:15-110 | the statements are pieces of the text, trimmed and in their order; a piece is missing exactly when all its tokens are white space or skipped comments, or when, trimmed, it ends with a bare `--` and holds nothing else to execute |
| Whitespace.SpaceTable | server/src/database/sql-statements.ts:102-106 | the 25 characters trim() takes |
| SqlStatements.StripStep | server/src/database/sql-statements.ts:118-178 | one turn of the loop moves, changes mode and writes as the lexer does |
| SqlStatements.StripComments | server/src/database/sql-statements.ts:113-181 | the whole loop computes the stripped text |
| SqlStatements.PushStatement | server/src/database/sql-statements.ts:101-110 | appends the trimmed piece exactly when something is left to execute |
| SqlStatements.SplitStep | server/src/database/sql-statements.ts:22-87 | one turn of the splitting loop |
| SqlStatements.SplitSqlStatements | server/src/database/sql-statements.ts:15-91 | the imperative splitter computes the statements of the recursive lexer |
| Whitespace.TrimSplits | server/src/database/sql-statements.ts:102-106 | trimming takes white space and nothing else from both ends |
| CountdownInvariants.ActiveHoldsLock | server/src/realtime/realtime.gateway.ts:263-422 | in every run an active countdown holds the lock as countdown with its automatic release armed |
| CountdownInvariants.NoOverlap | server/src/realtime/realtime.gateway.ts:263-422 | no rally acquires the lock while a countdown is active, and no countdown becomes active while a rally holds it |
| CountdownInvariants.FreeIffNothingArmed | server/src/realtime/busy-lock.service.ts:21-71 | the lock is free exactly when none of its timers is live |
| CountdownInvariants.FiringEndsItAtItsTime | server/src/realtime/realtime.gateway.ts:402-434 | a firing leaves the countdown running exactly before startedAt + totalSeconds*1000 + 1000 (and startedAt not 0), and then re-arms for that moment |
| CountdownInvariants.EndedInTime | server/src/realtime/realtime.gateway.ts:367-422 | a countdown that is over was stopped, or ended by a firing at or after its time |
| CountdownInvariants.EndsInTime | server/src/realtime/realtime.gateway.ts:367-422 | a step ends an active countdown exactly when it is a stop or such a firing |
| CountdownInvariants.TimerDiesWithAcquisition | server/src/realtime/busy-lock.service.ts:21-71 | a timer armed for one acquisition is never live in a later one |
| CountdownInvariants.StepKeepsTimers | server/src/realtime/busy-lock.service.ts:21-71 | one step keeps a live timer only within its acquisition |
| CountdownInvariants.RallyEnds | server/src/rally-groups/rally-groups.service.ts:346-409 | a rally's lock ends exactly by that rally's release or by the firing of its own timer |
| CountdownInvariants.TimerDueAtEnd | server/src/realtime/realtime.gateway.ts:344-358 | with probes answered before the start, the armed timer of an active countdown is due exactly at its end |
| CountdownInvariants.OwnStartBegins | server/src/realtime/realtime.gateway.ts:320-364 | a start whose acquisition still stands becomes the countdown under that acquisition |
| CountdownInvariants.LostStartTakesOver | server/src/realtime/realtime.gateway.ts:331-358 | a start that lost its acquisition during the probe takes the countdown over exactly when a later countdown holds the lock |
| CountdownInvariants.StoppedStartComesBack | server/src/realtime/realtime.gateway.ts:331-358 | a concrete run: start, stop, start, and the first start's probe answer makes it the countdown |
| CountdownInvariants.StepKeeps | server/src/realtime/realtime.gateway.ts:263-434 | every event keeps the protocol invariants |
| CountdownInvariants.RunKeeps | server/src/realtime/realtime.gateway.ts:263-434 | every run keeps the protocol invariants |
| CountdownSteps.StartTakesLock | server/src/realtime/realtime.gateway.ts:264-303 | a start of 1 to 600 whole seconds takes a free lock, with one live timer due after that time and one second; any other start changes nothing |
| CountdownSteps.ProbeBegins | server/src/realtime/realtime.gateway.ts:331-364 | an answered probe makes its start the countdown while a countdown holds the lock, with the timer due at startedAt + totalSeconds*1000 + 1000; otherwise it only ends the call |
| CountdownSteps.StopFrees | server/src/realtime/realtime.gateway.ts:367-392 | a stop frees the lock and ends the countdown, unless a rally holds it |
| CountdownSteps.RallyTakesLock | server/src/rally-groups/rally-groups.service.ts:340-361 | a rally takes a free lock for 7000 ms, its longest march and 5000 ms |
| CountdownSteps.RallyFrees | server/src/rally-groups/rally-groups.service.ts:396-410 | a rally's release frees the lock exactly when this very rally holds it |
| CountdownSteps.RallyTimerFrees | server/src/realtime/busy-lock.service.ts:29-33 | a rally's timer frees its lock |
| CountdownSteps.TimerBeforeProbe | server/src/realtime/realtime.gateway.ts:402-422 | a countdown's timer that fires before its probe is answered frees the lock |
| CountdownService.BusyLockService.Arm | server/src/realtime/busy-lock.service.ts:29-33 | a new live timer, known to the lock |
| CountdownService.BusyLockService.TryAcquire | server/src/realtime/busy-lock.service.ts:21-36 | refused while held; otherwise held, with a timer for a positive time |
| CountdownService.BusyLockService.Reschedule | server/src/realtime/busy-lock.service.ts:42-57 | only for the holder and a positive finite time: the old timer is cleared and a new one armed |
| CountdownService.BusyLockService.Release | server/src/realtime/busy-lock.service.ts:63-71 | only for the holder: timer cleared, lock free |
| CountdownService.BusyLockService.Expire | server/src/realtime/busy-lock.service.ts:29-33 | a firing timer leaves the table and frees the lock |
| CountdownService.RealtimeGateway.BeginStart | server/src/realtime/realtime.gateway.ts:264-303 | refused when invalid or busy; otherwise the lock is taken and the call suspended |
| CountdownService.RealtimeGateway.FinishStart | server/src/realtime/realtime.gateway.ts:331-364 | the resumed call takes the countdown over exactly when a countdown holds the lock |
| CountdownService.RealtimeGateway.HandleStop | server/src/realtime/realtime.gateway.ts:367-392 | refused while a rally holds the lock; otherwise released and idle |
| CountdownService.RealtimeGateway.HandleAutoExpire | server/src/realtime/realtime.gateway.ts:402-422 | re-acquires for the remaining time, or goes idle |
| CountdownService.RealtimeGateway.TimerFires | server/src/realtime/busy-lock.service.ts:29-33 | the lock is freed, then the timer's callback runs |
| CountdownService.RealtimeGateway.StartRally | server/src/rally-groups/rally-groups.service.ts:340-361 | the rally takes the lock for 7 s, its longest march and 5 s |
| CountdownService.RealtimeGateway.StopRally | server/src/rally-groups/rally-groups.service.ts:396-410 | a rally releases only its own lock |
| LoginThrottleInvariants.RunAnswersAsHistory | server/src/common/account-login-throttle.ts:74-128 | in every run the pruned lists give the answer of the full history: under 5 hits of the pair in the window, and under 15 of the account or none of the pair |
| LoginThrottleInvariants.AtMostFivePerPair | server/src/common/account-login-throttle.ts:74-95 | in every run in which no success cleared that pair and no cap evicted it, no 300,000 ms window lets more than 5 attempts of an (account, IP) through |
| LoginThrottleInvariants.AtMostFifteenAndOnePerIp | server/src/common/account-login-throttle.ts:74-95 | in every run in which no key of that account was cleared or evicted, no 300,000 ms window lets more than 15 + k attempts on an account through, k the number of IPs among them |
| LoginThrottleInvariants.FewerThanTwentyThousand | server/src/common/account-login-throttle.ts:134-153 | after every call the map holds fewer than sweepAt keys, and sweepAt is at most 20,000 |
| LoginThrottleInvariants.NoLiveKeyLost | server/src/common/account-login-throttle.ts:134-153 | while at most 10,000 keys are live every key keeps its unexpired hits |
| LoginThrottleInvariants.LetInAgain | server/src/common/account-login-throttle.ts:74-95 | a pair is let through again once its recorded hits are 300,000 ms old, whatever was blocked in between |
| LoginThrottleInvariants.BlockedLeavesNoTrace | server/src/common/account-login-throttle.ts:81-87 | a blocked attempt changes no later answer |
| LoginThrottleInvariants.AnswersAsHistory | server/src/common/account-login-throttle.ts:74-87 | the same equivalence for any state that keeps the invariants |
| LoginThrottleInvariants.BeyondFifteen | server/src/common/account-login-throttle.ts:81-84 | an attempt let through beyond 15 comes from an IP with no hit in the window |
| LoginThrottleInvariants.KeysDiffer | server/src/common/account-login-throttle.ts:75-76 | different keys are different strings as long as no IP holds a NUL |
| LoginThrottleInvariants.NulMixesKeys | server/src/common/account-login-throttle.ts:75-76 | with a NUL in an IP two pairs share a key |
| LoginThrottleInvariants.CapSizes | server/src/common/account-login-throttle.ts:134-153 | the memory cap leaves fewer keys than its new threshold, at most 20,000 |
| LoginThrottleInvariants.ConsumeKeeps | server/src/common/account-login-throttle.ts:74-95 | an attempt keeps every list a pruned form of its history |
| LoginThrottleInvariants.SuccessKeeps | server/src/common/account-login-throttle.ts:98-101 | so does a success |
| LoginThrottleInvariants.RunKeeps | server/src/common/account-login-throttle.ts:74-153 | so does every run |
| LoginThrottle.AccountLoginThrottle.RecentHits | server/src/common/account-login-throttle.ts:115-128 | the while loop prunes exactly the expired front; an empty list goes with its key |
| LoginThrottle.AccountLoginThrottle.Sweep | server/src/common/account-login-throttle.ts:137-142 | exactly the expired keys go |
| LoginThrottle.AccountLoginThrottle.EnforceMemoryCap | server/src/common/account-login-throttle.ts:134-153 | below the threshold nothing; otherwise swept, and if over 10,000 the oldest evicted down to 5,000 |
| LoginThrottle.AccountLoginThrottle.Evict | server/src/common/account-login-throttle.ts:149 | exactly these keys go |
| LoginThrottle.AccountLoginThrottle.Consume | server/src/common/account-login-throttle.ts:74-95 | let through and recorded in both lists, or blocked and only pruned |
| LoginThrottle.AccountLoginThrottle.RecordSuccess | server/src/common/account-login-throttle.ts:98-101 | both keys of the login go |
| LoginThrottle.FirstAreOldest | server/src/common/account-login-throttle.ts:145-149 | the first entries by last attempt are an oldest-first choice of the right size |
| LoginThrottleSteps.AttemptAnswered | server/src/common/account-login-throttle.ts:74-95 | in every run an attempt is let through and recorded exactly when fewer than 5 of its account and IP, and fewer than 15 of its account or none of its IP, were let through in the last 300,000 ms since they were last forgotten |
| LoginThrottleSteps.SuccessClears | server/src/common/account-login-throttle.ts:97-101 | a success clears the count of its account and of its account and IP, and of no other key |
| LoginThrottleSteps.NextAfterSuccess | server/src/common/account-login-throttle.ts:97-101 | the next attempt from there is let through |
| LoginThrottleSteps.CapIsCapped | server/src/common/account-login-throttle.ts:134-153 | at the threshold exactly the keys with a hit in the last 300,000 ms are left, or the 5000 youngest of more than 10,000; the next threshold is twice as many, at least 2000 |
| LoginThrottleSteps.RecordedAndCapped | server/src/common/account-login-throttle.ts:86-95 | an attempt that is let through adds its time to the recent hits of both keys before the map is capped, and what is evicted is forgotten |
| SlidingWindow.PrunedAnswers | server/src/common/account-login-throttle.ts:115-128 | a pruned list answers like the full one at every later time |
| SlidingWindow.RecentCounts | server/src/common/account-login-throttle.ts:115-128 | in an ascending list the pruned length is the number of hits in the window |
| SlidingWindow.WindowHolds | server/src/translate/translation-queue.service.ts:39-49 | if each admission found fewer than the limit in the window before it, no window anywhere holds more |
| TranslationQueue.AtMostFourRun | server/src/translate/translation-queue.service.ts:59-76 | in every run at most four jobs run, and a job waits only while four run |
| TranslationQueue.FirstInFirstOut | server/src/translate/translation-queue.service.ts:59-76 | jobs begin in the order of their admission, none skipped |
| TranslationQueue.AtMostRpm | server/src/translate/translation-queue.service.ts:39-49 | any 60,000 ms window admits at most rpm jobs |
| TranslationQueue.RefusedWhenFull | server/src/translate/translation-queue.service.ts:39-49 | a submission is refused exactly when the window that ends with it holds rpm admissions |
| TranslationQueue.RetryAfterIsExact | server/src/translate/translation-queue.service.ts:42-48 | retryAfterMs is at least 1 and exactly the earliest wait after which a retry without other admissions is accepted |
| TranslationQueue.RunKeeps | server/src/translate/translation-queue.service.ts:39-83 | every run keeps the queue's invariants |
| TranslationQueue.SubmittedJob | server/src/translate/translation-queue.service.ts:39-70 | an admitted job is the next in number and begins at once when fewer than four run, else it waits |
| TranslationQueue.FinishedJob | server/src/translate/translation-queue.service.ts:72-76 | a job that ends hands its slot to the job that waited longest |
| TranslationQueue.TranslationQueueService.Prune | server/src/translate/translation-queue.service.ts:78-83 | the loop drops exactly the expired front |
| TranslationQueue.TranslationQueueService.AcquireSlot | server/src/translate/translation-queue.service.ts:59-70 | runs at once below four, waits otherwise |
| TranslationQueue.TranslationQueueService.Submit | server/src/translate/translation-queue.service.ts:39-51 | refused with the wait, or admitted and begun or queued |
| TranslationQueue.TranslationQueueService.Release | server/src/translate/translation-queue.service.ts:72-76 | the slot goes to the first waiter, if any |
| RallyInvariants.TwoPhasesReorder | server/src/rally-groups/rally-groups.service.ts:538-563 | the two phases put every member on its rank by march time, whatever order the rows are read in, and change no other group |
| RallyInvariants.ReorderNumbers | server/src/rally-groups/rally-groups.service.ts:538-563 | from distinct numbers a reorder ends with exactly 1..n |
| RallyInvariants.ReorderSorts | server/src/rally-groups/rally-groups.service.ts:60-86 | after a reorder a member comes first exactly when it is slower, or equally slow and previously first |
| RallyInvariants.SortedRank | server/src/rally-groups/rally-groups.service.ts:66-86 | in a list sorted by march a member's place is its rank |
| RallyInvariants.NextIndexIsFree | server/src/rally-groups/rally-groups.service.ts:246-254 | the number count+1 of a new member is always free |
| RallyInvariants.ParkedUnique | server/src/rally-groups/rally-groups.service.ts:555-559 | after each write of the first phase the numbers are distinct |
| RallyInvariants.PlacedUnique | server/src/rally-groups/rally-groups.service.ts:560-563 | after each write of the second phase the numbers are distinct |
| RallyInvariants.AddKeeps | server/src/rally-groups/rally-groups.service.ts:233-257 | adding a member keeps every group numbered 1..n and each user once |
| RallyInvariants.RemoveKeeps | server/src/rally-groups/rally-groups.service.ts:261-271 | removing a member does |
| RallyInvariants.OverrideKeeps | server/src/rally-groups/rally-groups.service.ts:277-309 | changing an override does |
| RallyInvariants.RunKeeps | server/src/rally-groups/rally-groups.service.ts:233-309 | after every run every group is numbered exactly 1..n and no user is in a group twice |
| RallyIndex.EveryWriteKeepsIndex | server/src/rally-groups/rally-groups.service.ts:233-309 | in every run, whatever event comes next and however its rows are read: (group, order number) is unique after the event's own insertion, deletion or change and after every single write of the reorder behind it |
| RallyIndex.StepReorders | server/src/rally-groups/rally-groups.service.ts:233-309 | what an addition, a removal, a change of override or a reorder comes to is the table it leaves, reordered |
| RallySteps.ChangeReorders | server/src/rally-groups/rally-groups.service.ts:233-309 | in every run a change of members leaves every row as it is but for its number; in the group a member comes first exactly when it marches longer (override, else its user's time, else 0), or as long and came first before, a new member having come last |
| RallySteps.InterimIsLeft | server/src/rally-groups/rally-groups.service.ts:233-309 | an eleventh member, a user already in the group and an unknown row change nothing |
| RallySteps.UserMarchChanges | server/src/rally-groups/rally-groups.service.ts:75-79 | a user's own time changes in all its rows and nothing else does |
| RallySteps.FiresByMarch | server/src/rally-groups/rally-groups.service.ts:88-103 | the offset of a member is the longest march (0 when all are negative) less its own march, in seconds, times 1000 |
| RallySchedule.ArriveTogether | server/src/rally-groups/rally-groups.service.ts:88-103 | offset plus march is the longest march for every member, and no offset is negative |
| RallySchedule.OffsetsFollowOrder | server/src/rally-groups/rally-groups.service.ts:88-103 | after a reorder a later order number never fires earlier |
| RallySchedule.FirstFiresAtOnce | server/src/rally-groups/rally-groups.service.ts:88-103 | order number 1 fires at once exactly when some march is not negative |
| RallySchedule.MaxIsAMarch | server/src/rally-groups/rally-groups.service.ts:95-96 | the longest march is the largest of the members', or 0 |
| RallySchedule.ReleaseAfterLastFire | server/src/rally-groups/rally-groups.service.ts:340-369 | the lock is freed at least 5000 ms after the last fire exactly when the time between acquisition and start stamp is within the shortest march |
| RallySchedule.MarginFallsShort | server/src/rally-groups/rally-groups.service.ts:340-369 | a member with a march of 0, stamped one millisecond after the acquisition, leaves 4999 ms |
| RallyMembers.Weigh | server/src/rally-groups/rally-groups.service.ts:75-79 | what the members are sorted by |
| RallyMembers.Renumber | server/src/rally-groups/rally-groups.service.ts:84-87 | the objects get 1..n in place |
| RallyMembers.SortMembersByMarchDesc | server/src/rally-groups/rally-groups.service.ts:66-86 | the same objects, slowest first, ties in previous order, renumbered in place |
| RallyMembers.RallyGroupsService.ReorderByMarchSeconds | server/src/rally-groups/rally-groups.service.ts:538-563 | every write meets the unique index; each member ends on its rank |
| RallyMembers.RallyGroupsService.WritePhases | server/src/rally-groups/rally-groups.service.ts:555-563 | the two loops write as the model does |
| RallyMembers.RallyGroupsService.AddToGroup | server/src/rally-groups/rally-groups.service.ts:233-257 | full group, duplicate user, or inserted and reordered |
| RallyMembers.RallyGroupsService.RemoveFromGroup | server/src/rally-groups/rally-groups.service.ts:261-271 | not found, or removed and reordered |
| RallyMembers.RallyGroupsService.UpdateMarchOverride | server/src/rally-groups/rally-groups.service.ts:277-306 | not found, or changed and reordered |
| RallyGroups.ShiftedUnique | server/src/rally-groups/rally-groups.service.ts:206-221 | after every single save of a removal the display orders are distinct |
| RallyGroups.ShiftedCloses | server/src/rally-groups/rally-groups.service.ts:206-221 | all saves together close the gap |
| RallyGroups.RunKeeps | server/src/rally-groups/rally-groups.service.ts:170-222 | in every run display orders are exactly 1..N with matching names, at most 6 |
| RallyGroups.NoGap | server/src/rally-groups/rally-groups.service.ts:170-222 | each of the numbers 1..N belongs to a group |
| RallyGroups.CreationTakesNext | server/src/rally-groups/rally-groups.service.ts:170-190 | in every run a creation takes the next number up to 6, changes no other group, and is refused at 6 |
| RallyGroups.RemovalMovesUp | server/src/rally-groups/rally-groups.service.ts:197-222 | in every run a removal moves exactly the groups behind the gap up by one, names included |
| RallyGroups.NameOf | server/src/rally-groups/rally-groups.service.ts:170-190 | the names of the six groups |
| RallyGroups.RallyGroupTable.CreateGroup | server/src/rally-groups/rally-groups.service.ts:170-190 | refused at 6; otherwise the next number, which is free |
| RallyGroups.RallyGroupTable.RemoveGroup | server/src/rally-groups/rally-groups.service.ts:197-222 | not found, or removed and the rows behind it moved up one by one, each save meeting uniqueness |
| RallyGroups.RallyGroupTable.FindTail | server/src/rally-groups/rally-groups.service.ts:210-213 | the rows behind the gap in ascending order |
| ClockBounds.EveryTabWithinHalfRtt | web/src/clockSync.js:97-218 | in every run of any number of tabs, with late or repeated broadcasts, every synchronised tab is within half of the worst best round trip, from its first synchronisation on |
| ClockBounds.ErrorHalvesEachTime | web/src/clockSync.js:180-218 | n further synchronisations with best round trips of at most r leave at most r/2 plus a 2^n-th of the error, through jumps and smoothing |
| ClockBounds.MeasureIsExact | web/src/clockSync.js:104-107 | the round trip is the time on the wire, and the offset errs by half the difference of the legs |
| ClockBounds.MeasureIsTruthful | web/src/clockSync.js:104-138 | the offset of every exchange, older replies included, errs by at most half its round trip |
| ClockBounds.BestIsFastest | web/src/clockSync.js:199-201 | the chosen sample is one collected and none has a shorter round trip |
| ClockBounds.ExtraSamplesOnlyHelp | web/src/clockSync.js:188-197 | the extra samples can only shorten the best round trip; at most 8 samples in all |
| ClockBounds.AdjustStaysWithin | web/src/clockSync.js:203-215 | first adoption, jump and smoothing all stay within the bound |
| ClockBounds.AdjustHalvesError | web/src/clockSync.js:203-215 | each synchronisation halves what is left of the error |
| ClockSteps.SyncAdopts | web/src/clockSync.js:180-220 | a synchronisation fails and changes nothing when no attempt was answered; else it adopts the first of the fastest samples, at once the first time and from 500 ms on, else half way, and broadcasts it; extra attempts count on a jittery line only |
| ClockSteps.CollectCollects | web/src/clockSync.js:97-170 | the samples are those of the answered attempts, in order, each with its round trip and offset |
| ClockSteps.JitterIs | web/src/clockSync.js:153-159 | a line is jittery exactly when n times the sum of the squared round trips less the square of their sum reaches (100 n) squared |
| ClockSteps.FirstFastest | web/src/clockSync.js:199-201 | the sample chosen is the first of the fastest |
| ClockSteps.OtherClockEvents | web/src/clockSync.js:306-368 | a broadcast is taken over, a shut-down tab starts anew with its offset, a new tab knows nothing |
| ClockSync.SyncClient.CollectSamples | web/src/clockSync.js:162-170 | the loop appends the measured samples |
| ClockSync.SyncClient.SyncTime | web/src/clockSync.js:180-220 | fails without samples; otherwise adopts or averages |
| ClockSync.SyncClient.ReceiveOffset | web/src/clockSync.js:306-314 | another tab's result is taken over |
| ClockSync.SyncClient.ShutDown | web/src/clockSync.js:363-368 | the next synchronisation is a first one; the offset stays |
| TranslateEngineProofs.EveryTargetAskedOnce | server/src/translate/translate-engine.service.ts:118-204 | the final calls ask for every distinct target once, in order, and the result is exactly what their replies brought |
| TranslateEngineProofs.CallsAndBudgets | server/src/translate/translate-engine.service.ts:118-173 | fewer than two calls a distinct target, and the cap lowers the budget of none |
| TranslateEngineProofs.OnlyRequestedLanguages | server/src/translate/translate-engine.service.ts:196-203 | only requested languages come back, each with a trimmed, non-blank text |
| TranslateEngineProofs.AtMostTwiceAsManyCalls | server/src/translate/translate-engine.service.ts:142-190 | halving takes at most 2k-1 calls for k targets |
| TranslateEngineProofs.ChunkCovers | server/src/translate/translate-engine.service.ts:142-203 | the final calls of a chunk partition its targets |
| TranslateEngineProofs.ChunksPartition | server/src/translate/translate-engine.service.ts:128-131 | the chunks are the targets in order |
| TranslateEngineProofs.PerCallFits | server/src/translate/translate-engine.service.ts:123-127 | a call for as many targets as a chunk holds needs no more than the cap |
| TranslateEngineProofs.EstimateIsCeiling | server/src/translate/translate-engine.service.ts:73-74 | the estimate is the least whole number not under 2.5 a character |
| TranslateEngineProofs.BatchChunksPartition | server/src/translate/translate-engine.service.ts:217-231 | the chunks concatenate to the items, and each is within 1400 tokens or a single item |
| TranslateEngineProofs.FillIsGreedy | server/src/translate/translate-engine.service.ts:221-230 | no chunk ended early: the next item would not have fitted |
| TranslateEngineProofs.BatchBudgetLowered | server/src/translate/translate-engine.service.ts:267-271 | the cap lowers a chunk's budget exactly when it is a single item above 1400 tokens |
| TranslateEngineProofs.FittingItemsKeepBudget | server/src/translate/translate-engine.service.ts:267-271 | with texts of at most 560 UTF-16 units no budget is lowered |
| TranslateEngineProofs.BatchCallsLowered | server/src/translate/translate-engine.service.ts:210-327 | whatever the provider replies, repetitions included, the budget of a call is lowered exactly when the call is for one item of more than 560 UTF-16 units |
| TranslateEngineProofs.LongItemsLowered | server/src/translate/translate-engine.service.ts:210-327 | when a batch is done, an item was asked for with a lowered budget exactly when it has more than 560 units |
| TranslateEngineProofs.BatchAnswersItsItems | server/src/translate/translate-engine.service.ts:210-239 | the answer has exactly the given ids, in at most two calls an item |
| TranslateEngineProofs.BatchChunkAnswers | server/src/translate/translate-engine.service.ts:241-327 | a chunk of k items takes at most k+1 calls and answers for exactly its items |
| TranslateEngineProofs.BatchSaysOnlyWhatWasSaid | server/src/translate/translate-engine.service.ts:316-326 | every translation returned stands in a reply to a call that asked for that item |
| TranslateEngine.TranslateEngineService.TranslateMultiChunk | server/src/translate/translate-engine.service.ts:142-204 | the recursion makes the model's calls and gives its outcome |
| TranslateEngine.TranslateEngineService.TranslateHalves | server/src/translate/translate-engine.service.ts:177-184 | first half rounded up, then the second; a throw ends it |
| TranslateEngine.TranslateEngineService.OutputBudget | server/src/translate/translate-engine.service.ts:157-164 | the budget of a call |
| TranslateEngine.TranslateEngineService.CutTargets | server/src/translate/translate-engine.service.ts:128-131 | the slicing loop |
| TranslateEngine.TranslateEngineService.TranslateMulti | server/src/translate/translate-engine.service.ts:118-140 | no target: no call; no client: an error; otherwise the chunks in order |
| TranslateEngine.TranslateEngineService.RunChunks | server/src/translate/translate-engine.service.ts:133-139 | the loop over the chunks, later ones overriding source |
| TranslateEngine.TranslateEngineService.ReadReply | server/src/translate/translate-engine.service.ts:316-325 | entries for unknown ids are ignored |
| TranslateEngine.TranslateEngineService.TranslateItem | server/src/translate/translate-engine.service.ts:241-327 | one item without repetition |
| TranslateEngine.TranslateEngineService.SplitPerItem | server/src/translate/translate-engine.service.ts:290-298 | item by item |
| TranslateEngine.TranslateEngineService.TranslateBatchChunk | server/src/translate/translate-engine.service.ts:241-327 | cut off or broken replies are repeated once, item by item |
| TranslateEngine.TranslateEngineService.CutItems | server/src/translate/translate-engine.service.ts:218-231 | the greedy loop |
| TranslateEngine.TranslateEngineService.TranslateBatch | server/src/translate/translate-engine.service.ts:210-239 | the whole batch |
| TranslateEngine.TranslateEngineService.RunBatches | server/src/translate/translate-engine.service.ts:233-238 | the loop over the chunks |
| TranslateAnswers.ResultIsSaid | server/src/translate/translate-engine.service.ts:118-204 | a language is in the result exactly when a readable reply to a call for it holds a text in that very language that is not blank, and the result is that text, trimmed |
| TranslateAnswers.CallsAreWellMade | server/src/translate/translate-engine.service.ts:118-190 | the calls take the replies in turn; the first asks for as many distinct targets as fit 1400 tokens, a cut-off call is followed by its first half, rounded up, and the whole fails exactly when its last call failed or was unreadable |
| TranslateAnswers.SourceIsReported | server/src/translate/translate-engine.service.ts:133-139 | the source is that of the last part of the calls in which a reply knew it, and within the part of the first such reply |
| TranslateAnswers.ChunkSource | server/src/translate/translate-engine.service.ts:177-184 | within a part the first reply that knows one of the five languages counts |
| TranslateAnswers.PerCallIsLargest | server/src/translate/translate-engine.service.ts:123-127 | a call takes the largest number of targets within 1400 tokens, and at least one |
| BatchAnswers.LastReplyCounts | server/src/translate/translate-engine.service.ts:210-327 | every item of a finished batch has the answer of the last call that asked about it: the reply's last entry for its id, trimmed, or nothing when the text is blank or missing or the reply was cut off or no list |
| BatchAnswers.BatchCallsAreMade | server/src/translate/translate-engine.service.ts:210-327 | a batch asks about its cuts in order; a cut whose reply is broken is asked about once more item by item, a single cut-off item excepted; the first call that fails ends it |
| BatchAnswers.ReadTells | server/src/translate/translate-engine.service.ts:316-325 | the last entry for an id counts, entries for other ids do not |
| BatchRequest.AcceptedLowered | server/src/translate/dto/translate-batch.dto.ts:20-31 | an item of an accepted request is asked for with a lowered budget exactly when it has more than 560 units; it has at most 1500, and if it is lowered more than 60 of them are counted together with the one before |
| BatchRequest.CountedByPositions | server/src/translate/dto/translate-batch.dto.ts:20-31 | the count made by pattern matching is the number of units that are neither the second half of a pair nor a selector behind another unit |
| BatchRequest.CountedBound | server/src/translate/dto/translate-batch.dto.ts:20-31 | a text has at most three units for each counted character |
| BatchRequest.PairsLowerBudget | server/src/translate/dto/translate-batch.dto.ts:20-71 | an accepted request: 500 times U+1D400, a letter of two units, is estimated at 2500 tokens and asked for with a budget of 1500 where 2600 would be wanted |
| BatchRequest.SelectorsLowerBudget | server/src/translate/dto/translate-batch.dto.ts:20-71 | an accepted request without a surrogate pair: the letter a and 281 times U+263A U+FE0F, 282 counted characters, asked for with 1500 where 1508 would be wanted |
| BatchRequest.LongestText | server/src/translate/dto/translate-batch.dto.ts:20-71 | an accepted text of 1500 units |
| TtsCacheProofs.DeletedWhenChanged | server/src/tts/tts.cache-meta.ts:171-224 | for any saved version 2 meta, missing languages, missing phrase tables and foreign hashes included: an allowed file is deleted exactly when the global hash, its language's voice or its own phrase differs |
| TtsCacheProofs.DeletedWhenStale | server/src/tts/tts.cache-meta.ts:171-224 | with the meta of earlier settings an allowed file is deleted exactly when what would be synthesised for it has changed |
| TtsCacheProofs.StrangersAreDeleted | server/src/tts/tts.cache-meta.ts:181-187 | a file of no language and key is deleted whatever the saved meta |
| TtsCacheProofs.OldMetaSparesNumbers | server/src/tts/tts.cache-meta.ts:226-248 | a version 1 meta of the same rate and voices spares exactly the numbers |
| TtsCacheProofs.NothingLostBeforeMeta | server/src/tts/tts.cache-meta.ts:302-305 | stopped anywhere before the meta write, the next plan holds exactly the deletions still to be done |
| TtsCacheProofs.ReplanAfterReconcile | server/src/tts/tts.cache-meta.ts:291-305 | after a reconcile the next plan holds just the failed unlinks of files outside the allowed set |
| TtsCacheProofs.LostExactlyWhenUnlinkFails | server/src/tts/tts.cache-meta.ts:302-305 | a pending deletion is lost exactly when the unlink of an allowed file failed |
| TtsCacheProofs.LostStays | server/src/tts/tts.cache-meta.ts:291-305 | a stale allowed file whose unlink failed once stays, however often the cache is reconciled under the same settings and whichever unlinks fail then |
| TtsCacheProofs.StaleFileStays | server/src/tts/tts.cache-meta.ts:291-305 | such a file: a number spoken at the old rate, locked while the cache is reconciled with the new one |
| TtsCacheProofs.ReconcileSettles | server/src/tts/tts.cache-meta.ts:291-305 | with every unlink done, planning again deletes nothing and a second reconcile changes nothing |
| TtsCacheProofs.PlanIsPerFile | server/src/tts/tts.cache-meta.ts:171-253 | the plan judges each file by itself |
| TtsCacheProofs.NamesDiffer | server/src/tts/tts.cache-meta.ts:137 | a file name tells its language and key, and the prefix test its language |
| TtsSpeech.PhraseDeletedWhenHeard | server/src/tts/tts.cache-meta.ts:171-224 | a phrase both settings have is deleted exactly when the rate, the templates, the voice of its language (else the Korean one) or its text in the language (else the English one) is not the same |
| TtsSpeech.NumberDeletedWhenHeard | server/src/tts/tts.cache-meta.ts:171-224 | a number is deleted exactly when the rate, the templates or the voice of its language is not the same |
| TtsSpeech.NewPhraseDeleted | server/src/tts/tts.cache-meta.ts:171-224 | a phrase new to the settings is deleted |
| TtsSpeech.OtherMetaDeletesAll | server/src/tts/tts.cache-meta.ts:226-253 | without a readable meta, or with a version 1 meta of another rate or other voices, everything is deleted |
| TtsSpeech.MetaRecords | server/src/tts/tts.cache-meta.ts:95-119 | the meta records the rate, the templates, the voice of each language and the text of each phrase in it |
| TtsSpeech.AllowedAre | server/src/tts/tts.cache-meta.ts:137 | the allowed files are those of each phrase and number in the four languages |
| TtsSpeech.ReconcileRecords | server/src/tts/tts.cache-meta.ts:291-305 | a reconcile unlinks exactly the planned files that are not locked and records the settings |
| TtsCache.BuildCacheMetaFrom | server/src/tts/tts.cache-meta.ts:95-119 | the loops build the meta |
| TtsCache.HashLangs | server/src/tts/tts.cache-meta.ts:100-109 | the loop over the languages hashes voices and phrases |
| TtsCache.DoomLanguage | server/src/tts/tts.cache-meta.ts:201-221 | the whole language for a changed voice, single files for changed phrases |
| TtsCache.PlanCacheInvalidation | server/src/tts/tts.cache-meta.ts:171-253 | deletes exactly the doomed files; a full wipe exactly when the global settings call for it |
| TtsCache.CacheDirectory.ReconcileCache | server/src/tts/tts.cache-meta.ts:291-305 | planned files unlinked where possible, then the current meta written |
| PlayerInvariants.OnceAndOnTime | web/src/components/Battle/countdownPlayer.js:339-379 | in every run, for any buffer arrivals, each slot of a schedule is started once at most and no more than 0.2 s after its time |
| PlayerInvariants.NumbersDescend | web/src/components/Battle/countdownPlayer.js:314-356 | of two numbers of a schedule the larger sounds first, at least 0.8 s before the smaller |
| PlayerInvariants.OlderNeverStartAgain | web/src/components/Battle/countdownPlayer.js:250-391 | after a stop or reschedule no source of an older schedule starts |
| PlayerInvariants.OnlyLatestSounds | web/src/components/Battle/countdownPlayer.js:381-391 | only sources of the latest schedule are left to sound |
| PlayerInvariants.SilentUntilScheduled | web/src/components/Battle/countdownPlayer.js:116-122 | after a stop nothing starts until the next schedule, even when the audio clock comes back |
| PlayerInvariants.EverySlotIsServed | web/src/components/Battle/countdownPlayer.js:314-322 | a schedule past its awaits has every number from its total down to 1, and the march, started, waiting or more than 0.2 s past |
| PlayerInvariants.PlayedUnlessStale | web/src/components/Battle/countdownPlayer.js:343-356 | an arriving buffer is played exactly when its schedule stands and its slot is not more than 0.2 s back |
| PlayerInvariants.StepStartsLatest | web/src/components/Battle/countdownPlayer.js:343-379 | whatever a step starts belongs to the latest schedule |
| PlayerInvariants.SlotMatchesServerClock | web/src/components/Battle/countdownPlayer.js:307-317 | a source started for its slot leaves the loudspeaker at the slot's second of the server clock; the march shares its number's slot |
| PlayerInvariants.RunKeeps | web/src/components/Battle/countdownPlayer.js:240-391 | every run keeps the player's invariants |
| PlayerSteps.ScheduleBegins | web/src/components/Battle/countdownPlayer.js:240-283 | a countdown with a start and at least two seconds stops the one before it and is awaited under a new id; any other call does nothing |
| PlayerSteps.ClockReschedules | web/src/components/Battle/countdownPlayer.js:116-122 | when the clock runs again the countdown still wanted is scheduled anew, and nothing else happens |
| PlayerSteps.StopSilences | web/src/components/Battle/countdownPlayer.js:381-391 | next id, nothing pending, nothing sounding |
| PlayerSteps.WarmedPlans | web/src/components/Battle/countdownPlayer.js:284-322 | a superseded or standing call leaves nothing; the latest takes the anchor at which its slots are heard at the server's seconds, the latency capped at 0.5 s and a march of 1 to 180 s that fits, and starts only sources of its slots, for the slot or at once up to 0.2 s after it |
| PlayerSteps.WarmedServes | web/src/components/Battle/countdownPlayer.js:314-322 | every second and the march has then been started, waits for its buffer, or lies more than 0.2 s back |
| PlayerSteps.BufferStarts | web/src/components/Battle/countdownPlayer.js:343-367 | an arriving buffer ends its wait, and starts its slot exactly when it was loaded, its schedule stands and the slot is at most 0.2 s back |
| CountdownPlayer.Player.StopCountdownAudio | web/src/components/Battle/countdownPlayer.js:381-391 | next id, nothing pending, nothing sounding |
| CountdownPlayer.Player.ScheduleCountdown | web/src/components/Battle/countdownPlayer.js:240-283 | no effect without a start or below 2 s; otherwise the old schedule is stopped and the call suspended |
| CountdownPlayer.Player.StartSource | web/src/components/Battle/countdownPlayer.js:343-367 | dropped when superseded or late; otherwise started |
| CountdownPlayer.Player.SchedulePlay | web/src/components/Battle/countdownPlayer.js:339-379 | started at once or left waiting for its buffer |
| CountdownPlayer.Player.Warmed | web/src/components/Battle/countdownPlayer.js:284-322 | dropped when superseded or the clock stands still; otherwise all slots scheduled from one anchor |
| CountdownPlayer.Player.ScheduleNumbers | web/src/components/Battle/countdownPlayer.js:314-317 | the loop from the total down to 1 |
| CountdownPlayer.Player.BufferArrives | web/src/components/Battle/countdownPlayer.js:343-367 | the continuation of a waiting slot |
| CountdownPlayer.Player.SourceEnded | web/src/components/Battle/countdownPlayer.js:358 | the source leaves the active ones |
| CountdownPlayer.Player.ClockRuns | web/src/components/Battle/countdownPlayer.js:117-122 | the pending schedule is scheduled anew |

## Left out

- Time: one clock reading for each event; the throttle and the queue take a clock that does not run backwards.
- Chat translation: the reply handler and its finally handler run as one step; emitLanguage reports, aborting the fetch and merging message lists (only their result) are not modelled; a text is fixed for its id, and the script test is any function.
- TranslationSync.Sync.BatchTimerFires: a firing ahead of the armed time does nothing, where the source's callback would run the batch: timers are taken never to fire early, and the spacing of requests rests on that.
- Upload quota: outside the `AdmitLater` lemmas the last freshness test and the admission test are one step; releasing a reservation is the moment its upload stops writing; entries that are neither files nor directories do not occur; HTTP errors are only "the scan fails".
- UploadQuota.ScanDirectory: sums a directory that does not change meanwhile; the scan steps of the model cover changes between two reads.
- SQL splitter: a character is a code point, where the source indexes UTF-16 units; none of the characters it looks for is a surrogate. Statements are compared as texts, not by what a server makes of them.
- Countdown: authorisation, rate limits and broadcasts are left out; the probe always answers, so the branch that releases by type after a rejected probe is not reached; database writes of a rally are left out, only its lock is modelled; recomputeIfRunning has no caller.
- Login throttle: folding of nicknames, the guard, and the iteration order of the map, which decides among equally old keys only; the lists are values, so the in-place push on a shared array is not visible.
- LoginThrottleInvariants.AtMostFivePerPair: for runs in which no success cleared this very pair and no cap evicted it, as its count is otherwise started anew.
- LoginThrottleInvariants.AtMostFifteenAndOnePerIp: the same for the keys of this very account.
- TranslationQueue.TranslationQueueService.Submit: numbers the jobs by the list of all admissions, which the source does not keep; there a waiting job is a callback.
- Rally: rows of different requests racing each other, account deletion, broadcasts and the running state that refuses an override; deleting a user is not an event.
- RallyMembers.SortMembersByMarchDesc: sorts places in the list where the source sorts records holding the objects.
- Clock synchronisation: reals instead of floating point; the standard deviation is compared through its square; timers, retries with back-off and drift detection only decide when a synchronisation happens.
- ClockBounds.EveryTabWithinHalfRtt: the true offset is constant, and a broadcast may also reach a tab whose channel is closed.
- BatchRequest.AcceptedLowered: the validator library is not part of this model; that it takes one off the length for each surrogate pair and each unit followed by U+FE0E or U+FE0F is an assumption about the version the lock file names (package-lock.json:12474). The checks of id and target language, and which items of a request the controller skips (no letters, already in the language, already stored), are left open.
- Translation engine: prompts, glossary, usage records and the mapping of provider errors; replies are arbitrary.
- TTS cache: hashes are taken as injective; deletions happen in any order where the source sorts; reasons and counts are left out; a meta whose fields only differ in order is not rewritten.
- TtsCacheProofs.DeletedWhenStale: phrase keys are no numbers, as in the constants.
- Countdown audio: fetching, decoding and the cache of buffers are "ready", "arrives" or "fails"; the two awaits before the anchor are one; a start that throws counts as a buffer that failed; volume and telemetry are left out.
- Glossary, moderation, role checks, the second sliding-window limiter, the LRU cache and other members that would only repeat a pattern above.
