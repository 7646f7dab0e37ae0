# Tinyclaw: verified models of its stateful algorithms

Tinyclaw is a gateway between chat channels and language-model agents. Around its network plumbing it keeps
several small algorithms and protocols with state. This project models them in Dafny and proves what they
guarantee, over every input and every run. `dafny verify dfyconfig.toml` checks everything.

- **Splitting messages** (`MessageSplit`, `MessageSplitTheorems`, `MessageSplitCuts`, `MessageSplitParts`,
  `MessageSplitInline`, `MessageSplitTermination`, `MessageSplitEnding`, `MessageSplitLoop`): long Markdown is cut into bounded
  chunks; a code block that has to be cut is closed in one chunk and reopened in the next. Whenever the loop
  ends, chunks are bounded, balanced and lose no text; whether it ends is decided by the text alone.
- **Scheduling jobs** (`Cron`, `CronRuns`, `CronProgress`, `CronPlans`, `CronBegins`, `CronSeparation`,
  `CronWitnesses`, `CronLoop`): the critical sections of the cron service, interleaved in any order by users and by any number
  of scheduler goroutines. Jobs are not dispatched too early or too often; a job that is planned and left
  alone is dispatched in time, and one that is not planned is not dispatched.
- **Provider failover** (`Cooldown`, `CooldownTheorems`, `CooldownTracking`, `Fallback`): backoff deadlines
  as a function of a provider's history, and the chain that tries candidates in order.
- **Conversation history** (`History`, `HistoryRuns`, `AgentTurns`, `AgentLoop`): the transcripts the agent
  loop writes, their truncation and compression, the repair before a request, and whole turns.
- **Caches** (`PromptCache`, `Trigrams`, `SearchCache`, `DedupRing`): the system prompt checked by
  modification times, the search cache with its order of use and trigram similarity, and the ring that
  recognizes repeated messages.
- **Framing and keys** (`Framing`, `AgentID`, `SessionKey`): Content-Length frames around JSON-RPC bodies (the
  header part of the Language Server Protocol's base protocol), agent ids and session keys.
- `Text` holds what the models share: minimum and maximum, trimming, case folding, searching, decimal numbers.

Algorithms that the source runs by updating fields, arrays or lists are methods and classes here, proved
against functions; the theorems are about those functions.

## What turned out differently

Where the code does less than one might expect, the code is kept and the exact condition is proved.

- The splitter's comment promises that code blocks are kept intact. For fences inside a line this is false
  (`InlineFenceUnbalanced`); with fences at line starts, indented or not, it holds (`ChunksBalanced`).
- A fence line of `maxLen-6` characters or more can make the splitting loop run forever (`StuckExists`). On a
  trimmed text with fences at line starts it does so exactly when such a line follows balanced text and opens
  a block that is longer than `maxLen` and has no other fence near its start (`EndsIffNotBlocked`). A text
  that is not trimmed is trimmed by the first turn (`SplitEnds`).
- Dispatches of an "every" job, counted when `checkJobs` takes it over, are always an interval apart. The
  calls of its handler need not be, when a restart lets two goroutines work on batches at once
  (`OverlappingBatchesCollide`). They are if the job is never collected while another goroutine still has it
  (`BeginsSeparated`); which collections are safe is known exactly (`CollectSafeIff`).
- Saves that fail do no harm to these guarantees by themselves, but then `Load`, called while the service
  runs, can read a stale file: an "at" job is dispatched twice (`StaleLoadRepeats`). A load is safe exactly
  when every enabled job in the file still keeps its distance from the past (`LoadSafeIff`), as it does when
  no save fails (`SavedRunIsSafe`).
- A dispatch is lost, without a call of the handler, exactly when the job is no longer in the store when its turn
  comes (`NoDispatchLostIff`).
- Cooldown deadlines never move back for a failure window of 19 hours (less a nanosecond) or more, and can
  for any shorter one (`NeverMovesBackIff`); the code uses 24 hours.
- `NormalizeAgentID` is not idempotent: an id that starts with an underscore and is cut at 64 characters just
  behind a dash changes when normalized again (`NormalizeIdempotentIff`), and the main key of a peer
  normalizes twice (`ParsedAgentIff`). The documented format also rules out ids that start with an underscore;
  which ids get the documented format is known exactly (`NormalizedIsValidIff`).
- The reader takes whatever line follows Content-Length for the blank line. With more header lines there, which
  the base protocol allows, a body is read correctly only if it repeats the lines that follow, such as a body
  of "\r\n"s (`ExtraLinesReadIff`); a JSON body never is (`SecondHeaderMisread`). Header lines before
  Content-Length do no harm (`EarlierLinesSkipped`); a negative length ends the reader with a run-time error
  (`NegativeLengthPanics`).
- The cached prompt is fresh unless a tracked file was created between the baseline and its reading
  (`UnchangedIsFreshIff`, `FlickerGoesUnnoticed`).
- Session keys of different routes can coincide: when a channel or kind contains a colon (`ColonsCollide`), and,
  without such colons, exactly when a channel or account is called "direct" or an account like the kind of a
  peer, and the peers' ids make up for the difference (`KeysEqualIff`).
- Any two search queries shorter than three bytes answer each other (`ShortQueriesAreAlike`).

## Model

| member | source | states |
|---|---|---|
| MessageSplit.EffectiveLimit | pkg/utils/message.go:17-29 | the limit for plain cuts is positive, and leaves at least 5 characters for a closing fence once maxLen is 10 |
| MessageSplit.ScanParity | pkg/utils/message.go:112-132 | the scan reports an unclosed fence exactly when the number of fences is odd |
| MessageSplit.LastUnclosed | pkg/utils/message.go:110-132 | it returns -1 exactly for balanced text; otherwise a fence with balanced text before it |
| MessageSplit.NoneAfterUnclosed | pkg/utils/message.go:110-132 | no fence follows the one reported as unclosed |
| MessageSplit.NextClosingIsFirst | pkg/utils/message.go:136-143 | the closing fence found is the first one at or after the start |
| MessageSplit.LastWithinIsLast | pkg/utils/message.go:147-167 | the line break or blank found is the last one in the window |
| MessageSplit.StepShrinks | pkg/utils/message.go:21-105 | when fence lines fit, every turn of the loop strictly shortens the text, even though a header is put back in front |
| MessageSplit.HeadersStillFit | pkg/utils/message.go:73-98 | fence lines that fit still fit in the text that is left |
| MessageSplit.HeadersFitTerminates | pkg/utils/message.go:21-105 | when all fence lines fit, the loop ends |
| MessageSplit.SplitUnique | pkg/utils/message.go:21-105 | the chunks do not depend on how many turns are allowed |
| MessageSplitTheorems.EndsAtNewline | pkg/utils/message.go:31-38 | a plain chunk ends at the last line break in the window, if there is one |
| MessageSplitTheorems.EndsAtBlank | pkg/utils/message.go:31-38 | failing that, at the last blank in its window |
| MessageSplitTheorems.EndsAtLimit | pkg/utils/message.go:31-38 | failing both, at the effective limit |
| MessageSplitCuts.EffectiveLimitSize | pkg/utils/message.go:17-29 | what is kept back for closing a block: a tenth of maxLen, at least 50 characters, but at most half |
| MessageSplitCuts.CutsAtLineBreak | pkg/utils/message.go:54-75 | a block that cannot be kept whole, with more than 20 characters behind its opening line, is cut at the last line break that leaves room for the closing fence, and goes on under its own opening line |
| MessageSplitCuts.CutsAtRoom | pkg/utils/message.go:63-73 | without such a line break it is cut 5 characters before maxLen |
| MessageSplitCuts.CutIsLater | pkg/utils/message.go:63-71 | such a cut is never before the natural end |
| MessageSplitCuts.ReopenedChunk | pkg/utils/message.go:72-90 | what is sent for such a cut: the text up to it without trailing whitespace, a line break and a fence |
| MessageSplitCuts.RestIsTrimmed | pkg/utils/message.go:73-104 | what is left after a cut has no whitespace at its ends |
| MessageSplitCuts.EndsBeforeBlock | pkg/utils/message.go:76-84 | a block with less behind its opening line is left to the next chunk: this one ends at the last line break before it |
| MessageSplitCuts.EndsAtBlankBeforeBlock | pkg/utils/message.go:76-84 | failing that, at the last blank before the block |
| MessageSplitCuts.EndsAtBlock | pkg/utils/message.go:84-94 | failing both, at the block if it starts behind the first 20 characters; otherwise the block is cut 5 characters before maxLen |
| MessageSplitTheorems.BlockKeptWhole | pkg/utils/message.go:44-51 | a block whose closing fence is within maxLen is not cut: the chunk is extended to a fence and is balanced |
| MessageSplitTheorems.CutParity | pkg/utils/message.go:31-98 | no cut is inside a fence, and exactly the reopening cuts leave a block open |
| MessageSplitTheorems.ChunksBounded | pkg/utils/message.go:7-11 | whenever the loop ends, every chunk is non-empty and at most maxLen long, added closing fences included |
| MessageSplitTheorems.SplitConserves | pkg/utils/message.go:72-104 | dropping exactly the added closing fences and the reopened headers, the chunks carry the input's text in order, up to whitespace |
| MessageSplitTheorems.PlainTextConcatenates | pkg/utils/message.go:100-104 | without fences the chunks put together are the input, up to whitespace |
| MessageSplitParts.ChunksCarryText | pkg/utils/message.go:72-104 | whitespace is dropped only at cuts: the chunks follow one another in the text, but for the fence a cut through a block adds and the header it puts in front of the rest |
| MessageSplitParts.PlainChunksConsecutive | pkg/utils/message.go:100-104 | without fences the chunks are consecutive parts of the text, with only whitespace between them |
| MessageSplitTheorems.ChunksBalanced | pkg/utils/message.go:21-105 | whenever the loop ends, balanced input with fences at line starts, indented or not, gives only balanced chunks, in every branch |
| MessageSplitTheorems.HeaderLeadsNextChunk | pkg/utils/message.go:72-74 | when fence lines fit, a chunk closed by an added fence is followed by a chunk starting with the block's own opening line |
| MessageSplitInline.InlineFenceUnbalanced | pkg/utils/message.go:21-105 | for every limit from 10 on, balanced texts with fences inside a line for which a chunk is not balanced |
| MessageSplitTermination.ReopenShrinksIff | pkg/utils/message.go:72-74 | a reopening cut of a trimmed text makes progress exactly when the header and its line break are shorter than the cut |
| MessageSplitTermination.StuckForever | pkg/utils/message.go:92-97 | on a stuck text the loop never ends and the text never gets shorter |
| MessageSplitTermination.StuckExists | pkg/utils/message.go:92-97 | stuck texts exist for every limit from 9 on |
| MessageSplitEnding.EndsIffNotBlocked | pkg/utils/message.go:21-105 | on a trimmed text with fences at line starts the loop ends exactly when the text has no blocking block |
| MessageSplitEnding.BlockedAtIff | pkg/utils/message.go:52-97 | what blocks: after balanced text, a fence line of maxLen-6 characters or more whose block goes on for more than maxLen, with no other fence up to maxLen-3 behind its start |
| MessageSplitEnding.TurnKeeps | pkg/utils/message.go:21-105 | a turn on a text that is not stuck neither makes nor breaks a blocking block |
| MessageSplitEnding.SplitEnds | pkg/utils/message.go:21-105 | on any text with fences at line starts the loop ends exactly when the text fits or its first turn leaves no blocking block |
| MessageSplitEnding.SplitTerminatesIff | pkg/utils/message.go:21-105 | on these texts, then, exactly the same condition says when the chunks are defined |
| MessageSplitLoop.FindLastUnclosedCodeBlock | pkg/utils/message.go:112-132 | the scanning loop computes the specified fence |
| MessageSplitLoop.FindNextClosingCodeBlock | pkg/utils/message.go:136-143 | the search loop computes the specified index |
| MessageSplitLoop.FindLastNewline | pkg/utils/message.go:147-155 | the backward search finds the last line break of the window |
| MessageSplitLoop.FindLastSpace | pkg/utils/message.go:159-167 | the backward search finds the last blank of the window |
| MessageSplitLoop.SplitMessage | pkg/utils/message.go:14-108 | whenever it ends, the loop sends the specified chunks; a text that fits is sent as it is; chunks are bounded, balanced for proper Markdown, and consecutive parts of plain text |
| CronRuns.FreshPlan | pkg/cron/service.go:247-281 | a run planned after a dispatch keeps the distance the schedule demands; for a spent "at" job there is none |
| CronRuns.StepKeepsInv | pkg/cron/service.go:136-281 | every step, in any interleaving and with failing saves, keeps ids unique, plans apart from past dispatches and the history separated |
| CronRuns.DispatchesSeparated | pkg/cron/service.go:136-281 | in every run with safe loads an "at" job is dispatched at most once, "every" dispatches are an interval apart, and cron dispatches differ in time |
| CronRuns.LoadSafeIff | pkg/cron/service.go:305-332 | reading the file while running is safe for all that follows exactly when each enabled job in it, dispatched as soon as possible, keeps its distance from the past |
| CronRuns.SavedRunIsSafe | pkg/cron/service.go:305-346 | when no save fails, every reading of the file is safe |
| CronRuns.SavedDispatchesSeparated | pkg/cron/service.go:136-332 | when no save fails, dispatches are separated in every run, whatever is loaded |
| CronProgress.NextDispatch | pkg/cron/service.go:136-169 | a job nobody touches is next dispatched by the first check at or after its planned time, and stays planned until then |
| CronProgress.AtJobDispatchedOnce | pkg/cron/service.go:136-281 | an "at" job added for a later time and left alone until then is dispatched exactly once, by the first check at or after that time |
| CronProgress.EveryJobStarts | pkg/cron/service.go:136-281 | an "every" job left alone runs first at the first check an interval after it was added |
| CronProgress.EveryJobGoesOn | pkg/cron/service.go:202-281 | after its handler returned, an "every" job left alone is next dispatched by the first check an interval later |
| CronPlans.ReplannedIsDispatched | pkg/cron/service.go:83-281 | a job that was added, switched on, run or found in the file at a start, and is left alone, is next dispatched by the first check at or after the time its schedule asks for |
| CronPlans.CronJobIsDispatched | pkg/cron/service.go:263-278 | for a cron job that is the next tick of its expression |
| CronPlans.UnplannedIsNotDispatched | pkg/cron/service.go:247-281 | a job whose schedule asks for no further run is not dispatched, as long as it is left alone |
| CronPlans.TicklessIsNotDispatched | pkg/cron/service.go:263-274 | so a cron job with an empty or unusable expression is not dispatched |
| CronPlans.SilencedIsNotDispatched | pkg/cron/service.go:230-455 | a job that was switched off, removed, lost with an unreadable file, or is an "at" job after its run, is not dispatched, as long as it is left alone |
| CronPlans.AddedShape | pkg/cron/service.go:358-386 | a new job is last in the store, on, never run, planned as its schedule asks, and marked for deletion exactly if it is an "at" job |
| CronPlans.EnabledShape | pkg/cron/service.go:436-451 | switching changes whether the job is on, when it was updated and its plan, which is what its schedule asks for, or none |
| CronPlans.FinishedShape | pkg/cron/service.go:218-244 | after a run an "at" job marked for deletion is gone; any other job keeps start and outcome of the run, and is off if it is an "at" job, and otherwise planned as its schedule asks |
| CronPlans.EndShape | pkg/cron/service.go:178-227 | a job's last run is the time its handler was called |
| CronPlans.StartedShape | pkg/cron/service.go:83-105 | a start takes the jobs from the file, plans those that are on, and runs exactly if reading and saving succeed |
| CronPlans.WithoutShape | pkg/cron/service.go:412-421 | removing takes out exactly the job with the id and keeps the order of the others |
| CronPlans.UnknownJob | pkg/cron/service.go:405-456 | calls for a job that is not there change nothing and write no file |
| CronPlans.JobsInFile | pkg/cron/service.go:83-346 | when no reading and no save fails, the file always holds the jobs |
| CronBegins.StepKeepsAccounted | pkg/cron/service.go:172-195 | handler calls plus waiting ids never exceed dispatches, id by id |
| CronBegins.NoDispatchLostIff | pkg/cron/service.go:172-199 | each dispatch leads to a handler call or still waits in a queue, exactly when the job is in the store whenever its turn comes |
| CronBegins.AtJobRunsOnce | pkg/cron/service.go:178-195 | in every run the handler of an "at" job is called at most once |
| CronSeparation.BeginsSeparated | pkg/cron/service.go:178-244 | a job's handler calls are as far apart as its schedule says, if it is never collected while another goroutine has it queued or runs it |
| CronSeparation.CollectSafeIff | pkg/cron/service.go:136-195 | collecting a job is safe for its handler calls, whatever follows, exactly when no goroutine has it queued and its past calls are far enough away |
| CronWitnesses.OverlappingBatchesCollide | pkg/cron/service.go:83-175 | with a check each second, a slow job and a restart: two handler calls of a 2-second job are 300 ms apart |
| CronWitnesses.StaleLoadRepeats | pkg/cron/service.go:305-332 | a run in which reading a stale file gets an "at" job dispatched twice |
| CronLoop.CronService.CheckJobs | pkg/cron/service.go:136-169 | the two loops take over exactly the due jobs and clear their planned runs |
| CronLoop.CronService.RecomputeNextRuns | pkg/cron/service.go:283-291 | the loop replans every enabled job and no other |
| CronLoop.CronService.Start | pkg/cron/service.go:83-105 | start loads, replans and saves; it runs only if reading and saving succeed |
| CronLoop.CronService.AddJob | pkg/cron/service.go:348-389 | the new job is appended with its planned run, saved or not |
| CronLoop.CronService.RemoveJob | pkg/cron/service.go:412-430 | all jobs with the id go, the others keep their order, and the result says whether there was one |
| CronLoop.CronService.EnableJob | pkg/cron/service.go:432-456 | the first job with the id is switched and replanned, or its plan cleared |
| CronLoop.CronService.FinishJob | pkg/cron/service.go:202-244 | the update after a handler: an "at" job is removed, saving twice, or disabled; others are planned again |
| Cooldown.RemainingIsLeastWait | pkg/providers/cooldown.go:86-139 | the remaining cooldown is 0 exactly when the provider is available, and is the least wait after which it is |
| Cooldown.StreakIsLongest | pkg/providers/cooldown.go:49-53 | the counted failures are the longest run at the end of the history without a success or a gap over the window |
| CooldownTheorems.CountersMatchStreak | pkg/providers/cooldown.go:42-84 | the error count and the count of each reason are those of that run |
| CooldownTheorems.ErrorCountIsTotal | pkg/providers/cooldown.go:55-57 | the error count is always the sum of the counts by reason |
| CooldownTheorems.DisabledForBilling | pkg/providers/cooldown.go:59-82 | a provider is disabled for billing and for nothing else |
| CooldownTheorems.StandardTable | pkg/providers/cooldown.go:176-189 | the documented table of the standard backoff |
| CooldownTheorems.BillingTable | pkg/providers/cooldown.go:191-208 | the documented table of the billing backoff |
| CooldownTheorems.DeadlinesNeverMoveBack | pkg/providers/cooldown.go:42-66 | between successes neither deadline ever moves to an earlier time, resets of the counters included |
| CooldownTheorems.NeverMovesBackIff | pkg/providers/cooldown.go:9-66 | deadlines only move forward exactly for windows of 19 hours less a nanosecond, or more |
| CooldownTheorems.AvailableIffBackoffsOver | pkg/providers/cooldown.go:86-109 | a provider is available exactly when the backoff of every failure since the last success is over |
| CooldownTracking.CooldownTracker.MarkFailure | pkg/providers/cooldown.go:42-66 | only the provider's entry changes, and stays the one its history leads to |
| CooldownTracking.CooldownTracker.MarkSuccess | pkg/providers/cooldown.go:69-83 | counters and deadlines are cleared, other providers are untouched |
| CooldownTracking.CooldownTracker.IsAvailable | pkg/providers/cooldown.go:86-109 | the answer in terms of the provider's recorded history |
| CooldownTracking.CooldownTracker.CooldownRemaining | pkg/providers/cooldown.go:112-139 | the least wait until the provider is available |
| Fallback.ChainTruthful | pkg/providers/fallback.go:96-192 | attempts match candidates one by one; skips are exactly the providers in cooldown; success comes from an available provider after exactly the earlier candidates; exhaustion has one attempt each; an abort names its cause, a cancellation after a call only when that call was made and failed; the tracker is left with the failures among the attempts and the success |
| Fallback.FailedProviderRests | pkg/providers/fallback.go:102-173 | a provider that failed in the chain is not called again before a minute of clock time |
| Fallback.FallbackChain.Execute | pkg/providers/fallback.go:87-192 | the tracker is told of each failed attempt in order, and of the success, and of nothing else; a provider that answered has no failures counted and is available at once; result and attempts are as for the chain |
| History.SanitizedIsWellFormed | pkg/agent/context.go:479-542 | the repaired history has no system message, each tool result traces back to a caller, each caller follows a user or tool message |
| History.SanitizeDropsMisfits | pkg/agent/context.go:484-541 | a message is dropped exactly where keeping it would break that form |
| History.SanitizeFixesIff | pkg/agent/context.go:479-542 | a history is left unchanged exactly when it has that form |
| History.SanitizeIdempotent | pkg/agent/context.go:479-542 | repairing twice is repairing once |
| History.SanitizeSelects | pkg/agent/context.go:479-542 | the result is a subsequence that keeps every user and plain assistant message |
| History.TranscriptIsFixed | pkg/agent/loop.go:617-739 | what the agent loop writes needs no repair |
| History.SanitizeTail | pkg/agent/context.go:495-531 | of a tail of a transcript exactly the leading messages without partners are dropped |
| HistoryRuns.TruncatedTranscript | pkg/session/manager.go:125-146 | repairing a truncated transcript drops exactly the leading tool results and callers |
| HistoryRuns.CompressShape | pkg/agent/loop.go:791-832 | more than four messages shrink to half, rounded up, plus one: the first with a note, the newer ones in order, the last |
| HistoryRuns.CompressReachesFour | pkg/agent/loop.go:791-795 | repeated compression reaches four messages in at most as many steps as there were messages, and leaves four alone |
| HistoryRuns.SentHistoryIsPaired | pkg/agent/loop.go:555-593 | however turns, truncations and compressions interleave, the repaired history pairs every tool call with its results, in order |
| HistoryRuns.BuiltIsWellFormed | pkg/agent/context.go:453-475 | the prompt as the system message, then the repaired history, then the user's message as it is, unless it is blank; for any history what follows the prompt is well formed |
| AgentLoop.SanitizeHistoryForProvider | pkg/agent/context.go:479-542 | the loop with its backward scan computes the repair |
| AgentLoop.SessionManager.AddFullMessage | pkg/session/manager.go:71-87 | the message is appended to its session, created if need be; no other session changes |
| AgentLoop.SessionManager.SetHistory | pkg/session/manager.go:270-284 | an existing session's history is replaced; no session is created |
| AgentLoop.SessionManager.TruncateHistory | pkg/session/manager.go:125-146 | the last keepLast messages are kept, all if there are fewer, none if keepLast is not positive; summary and other sessions stay |
| AgentLoop.AgentLoop.ForceCompression | pkg/agent/loop.go:791-832 | the stored history is replaced by its compression |
| AgentTurns.TurnSound | pkg/agent/loop.go:393-743 | every request of a turn, retries after compression included, has one system message in front and pairs calls with results; the session stays a tail of a transcript without missing results |
| AgentTurns.TurnRecorded | pkg/agent/loop.go:480-743 | unless the context is too long, the session records the whole turn, and each iteration sends one request, extending the one before |
| AgentTurns.TurnFollowsReplies | pkg/agent/loop.go:393-743 | the first request carries the user's message; the turn says that message, a block for each iteration up to the first failure or direct answer, and its answer: that reply's content, or the default if it is empty or none came; the answer is the session's last message |
| AgentTurns.TriesShape | pkg/agent/loop.go:553-604 | an iteration sends its request; while the context is too long, at most twice, the history is compressed once more and sent instead; the last reply counts |
| AgentTurns.BlockShape | pkg/agent/loop.go:627-737 | a block is the caller with the ids of its calls, then each call's result under its id |
| AgentLoop.AgentLoop.CallModel | pkg/agent/loop.go:553-604 | the retry loop sends the specified requests and compresses the session as often as specified, at most twice |
| AgentLoop.AgentLoop.RunLLMIteration | pkg/agent/loop.go:480-743 | the loop sends, says and stores what is specified, and touches no other session |
| AgentLoop.AgentLoop.RunAgentLoop | pkg/agent/loop.go:393-475 | a whole turn sends, answers and stores what is specified, and touches no other session |
| PromptCache.OldFileUnchanged | pkg/agent/context.go:286-304 | a file no newer than the baseline has not changed since |
| PromptCache.UnchangedIsFreshIff | pkg/agent/context.go:118-304 | when the check sees no change, the cached contents are the current ones exactly if no tracked file was created between its stat and its reading |
| PromptCache.EditIsSeen | pkg/agent/context.go:134-150 | an edit between the baseline and a check is seen by the check |
| PromptCache.FlickerGoesUnnoticed | pkg/agent/context.go:286-304 | a file created, read and deleted during the build goes unnoticed |
| PromptCache.LateBaselineHidesEdit | pkg/agent/context.go:140-150 | for an edit during the build, the baseline taken first makes the next check see it; taken after the reading it would hide it |
| PromptCache.ContextBuilder.BuildCacheBaseline | pkg/agent/context.go:198-238 | existence of each file, and a reference time that bounds their times and is bounded by what was on disk |
| PromptCache.ContextBuilder.BuildSystemPromptWithCache | pkg/agent/context.go:121-158 | a prompt that is not rebuilt is the one a fresh build at the check would give; it is not rebuilt when the files are as the baseline found them |
| Trigrams.CodeInjective | pkg/skills/search_cache.go:180-183 | equal codes mean equal windows of three bytes |
| Trigrams.BuildTrigrams | pkg/skills/search_cache.go:175-196 | a strictly increasing list whose set is that of the windows' codes |
| Trigrams.IncreasingUnique | pkg/skills/search_cache.go:175-196 | such a list is determined by its set |
| Trigrams.JaccardSimilarity | pkg/skills/search_cache.go:199-221 | the merge walk computes intersection over union, without dividing by zero |
| Trigrams.SimilarityBounds | pkg/skills/search_cache.go:198-221 | similarity is symmetric, between 0 and 1, and 1 exactly for equal sets |
| SearchCache.ShortQueriesAreAlike | pkg/skills/search_cache.go:175-202 | queries of fewer than three bytes are all alike |
| SearchCache.SameKeyIff | pkg/skills/search_cache.go:168-170 | queries share a key exactly when they differ in case and outer whitespace at most |
| SearchCache.SearchCache.Get | pkg/skills/search_cache.go:51-90 | only live results; the query's own win; otherwise the most similar live query above the threshold; a hit counts as use |
| SearchCache.SearchCache.Put | pkg/skills/search_cache.go:93-133 | expired entries go, and a new key in a full cache displaces exactly the least recently used entry |
| SearchCache.SearchCache.MoveToEndLocked | pkg/skills/search_cache.go:158-166 | the key ends up last and the others keep their order |
| SearchCache.OldestGoes | pkg/skills/search_cache.go:117-122 | the first key of the order is the least recently used, and dropping it keeps order and entries in step |
| DedupRing.Accept | pkg/channels/onebot.go:950-959 | overwriting a slot forgets exactly the oldest accepted id; ring, index and set stay in step with the history |
| DedupRing.SetIsWindow | pkg/channels/onebot.go:950-952 | the set is exactly the last accepted ids |
| DedupRing.ForgottenAfter | pkg/channels/onebot.go:942-962 | an id is forgotten exactly when as many others as the ring holds were accepted after it |
| DedupRing.OneBotChannel.IsDuplicate | pkg/channels/onebot.go:942-962 | an id is a duplicate exactly when it is among the last accepted ids; otherwise it is accepted |
| Framing.ReadFrame | pkg/core/proxy.go:229-285 | reading takes exactly one written frame off a stream |
| Framing.FramesRoundTrip | pkg/core/proxy.go:229-285 | reading any sequence of written frames gives back their bodies, whatever bytes they hold and whatever follows |
| Framing.JunkLinesSkipped | pkg/core/proxy.go:261-271 | lines that announce no length are skipped |
| Framing.TooLargeSkipped | pkg/core/proxy.go:266-271 | a length that does not fit an int is passed over |
| Framing.NegativeLengthPanics | pkg/core/proxy.go:266-280 | a negative length is a run-time error |
| Framing.CutStreamGivesPrefix | pkg/core/proxy.go:252-285 | a stream cut off anywhere gives a prefix of the bodies |
| Framing.EarlierLinesSkipped | pkg/core/proxy.go:261-271 | header lines before Content-Length do no harm |
| Framing.ExtraLinesReadIff | pkg/core/proxy.go:266-285 | with more header lines a body is read correctly exactly if it repeats the lines behind the first of them; the stream is never left at the next frame |
| Framing.SecondHeaderMisread | pkg/core/proxy.go:266-285 | with a second header line every body not starting with a carriage return is misread |
| Framing.CoreProxy.SendRequest | pkg/core/proxy.go:220-238 | a frame is appended to what was written |
| Framing.ReadResponses | pkg/core/proxy.go:243-306 | the reading loop computes the specified bodies, for lengths that can be allocated |
| AgentID.NormalizedIsProper | pkg/routing/agent_id.go:22-66 | a normalized id has 1 to 64 id characters and does not start with a dash |
| AgentID.NormalizeKeepsLetters | pkg/routing/agent_id.go:22-44 | letters, digits and underscores survive in order, all of them unless the id is cut at 64 characters; an id without any becomes the default |
| AgentID.NormalizeFoldsCase | pkg/routing/agent_id.go:25-30 | case and outer whitespace make no difference; a blank id becomes the default |
| AgentID.RunIsOneDash | pkg/routing/agent_id.go:34 | a run of other characters becomes one dash |
| AgentID.CollapseConcat | pkg/routing/agent_id.go:34 | texts that do not meet inside such a run are rewritten independently |
| AgentID.NormalizeIdempotentIff | pkg/routing/agent_id.go:25-44 | normalizing again changes nothing, exactly unless the cleaned id starts with an underscore and is cut at 64 characters behind a dash |
| AgentID.NormalizedIsValidIff | pkg/routing/agent_id.go:20-44 | the result has the documented format exactly unless the id's first letter, digit or underscore is an underscore |
| AgentID.NormalizeNotIdempotent | pkg/routing/agent_id.go:34-39 | ids whose normalized form changes when normalized again |
| SessionKey.FindLinkedPeerID | pkg/routing/session_key.go:151-187 | the name of a link that lists the peer's id, alone or with the channel in front, whatever case and outer whitespace; empty if there is none |
| SessionKey.DirectPeerPart | pkg/routing/session_key.go:60-73 | a direct peer is called by the name it is linked to, if any, in every scope but the main one, and by its own id otherwise |
| SessionKey.DirectKey | pkg/routing/session_key.go:75-94 | the keys of direct messages in each scope, and the main key when the peer has no id |
| SessionKey.GroupKey | pkg/routing/session_key.go:97-103 | the keys of other peers |
| SessionKey.LinkedPeersShareKey | pkg/routing/session_key.go:67-90 | peers of different channels that are linked to one name share a session |
| SessionKey.ParsesIff | pkg/routing/session_key.go:107-125 | a key parses exactly if it is "agent", an id that is not blank and a rest that is not empty, between colons |
| SessionKey.ParseOfBuilt | pkg/routing/session_key.go:48-125 | every built key parses, to its agent id and the text that stands for the peer |
| SessionKey.ParsedAgentIff | pkg/routing/session_key.go:48-125 | parsing gives back the normalized agent id exactly unless the key is a main key and normalizing cuts the id at a dash |
| SessionKey.ParseOfMain | pkg/routing/session_key.go:40-43 | a main key built directly parses to the normalized agent id |
| SessionKey.KeysEqualIff | pkg/routing/session_key.go:48-103 | for all scopes, and channels and kinds without colons, keys are equal exactly when agent and route are, or when the routes collide over the name "direct" or an account named like a peer kind |
| SessionKey.ColonsCollide | pkg/routing/session_key.go:98-103 | with a colon in a channel, the keys of different groups can be equal |
| SessionKey.PerAccountKeysInjective | pkg/routing/session_key.go:75-103 | per-account keys are injective when channels and kinds have no colons and no account id is a peer kind |
| SessionKey.PerChannelKeysInjective | pkg/routing/session_key.go:82-103 | per-channel keys are injective when channels and kinds have no colons |

## Left out

- BeginsSeparated: one direction, since a collection can also be safe while another goroutine runs the job; the exact condition for a collection is `CollectSafeIff`.
- EndsIffNotBlocked: limits from 10 on; for limits from 5 to 9 `MessageSplitTermination.SplitEndsIff` says only that the loop ends when it meets no stuck text. Texts with fences inside lines are covered by the sufficient condition of `StepShrinks`.
- SplitMessage: characters stand for bytes and only ASCII whitespace is trimmed; calls that never end, or slice out of range with a limit below 5, are excluded.
- ChunksBalanced: one direction; a text with fences inside lines may or may not be cut through one. For a text with a fence, limits from 10 on. It counts fences as the source's scanner does; tildes are not fences there.
- CronService: payloads, names and the file format; `UpdateJob`, which can restore an old plan from a stale copy; `ListJobs`, `Status` and `getNextWakeMS`. Cron expressions are a function that gives a later time or none.
- CronRuns.Do: each critical section reads the clock once; the source reads it up to twice under the same lock.
- CooldownTracker: locking; durations do not overflow, and an instant is never Go's zero time.
- Execute: the error texts and durations of attempts, and other goroutines that use the tracker during a call; error classification is any function. `ExecuteImage` and `ResolveCandidates` are simpler variants or parsing.
- SessionManager: sessions are values in a map, so the pointer that `GetOrCreate` hands out, and changes through it, are not captured; files and timestamps.
- RunAgentLoop: the system prompt and the wording of the compression note are given; tool execution, logging, outbound messages, and truncation by the summarizer in the middle of a block (between blocks it is covered by `SentHistoryIsPaired`).
- ContextBuilder: the skills directory is a flag of the check and a time of the baseline; its contents, daily notes and global skills are not part of the prompt here. The prompt is any function of the five tracked files.
- SearchCache: locking; map iteration picks keys in any order, so ties between equally similar queries are open. The threshold is the exact fraction 7/10 and similarities are exact fractions.
- Trigrams.Sort: stands for the library's sort.
- ReadResponses: a length too large to allocate panics in the source; here the stream ends, since no stream is that long.
- KeysEqualIff: channels and kinds with a colon are excluded; keys are then equal when their texts are, as in `ColonsCollide`.
- CoreProxy: processes, JSON and the callbacks waiting for responses.
- FindLinkedPeerID: the identity links come as a list in the order the map happens to be visited.
- Channel adapters, provider factories, configuration, OAuth, hardware tools, commands and logging.
