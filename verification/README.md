# Verified model of the gola agent core

A Dafny model of the parts of `gola-core` that keep state or rewrite sequences, with proofs about
whole runs. `dafny verify dfyconfig.toml` checks it all.

Imperative code is modelled as methods and classes over the same fields, each proved against a
specification function; the promises are lemmas about those functions, in the modules whose names
end in `Laws` (and in `AuthorizationProtocol`).

| component | modules |
|---|---|
| strings as bytes with character boundaries | `Utf8` |
| text splitter | `TextSplitting`, `SplittingLaws` |
| message validation and repair | `Messages`, `MessageValidation`, `RepairLaws` |
| LLM wrappers: recovery, truncation, the composed stack | `AutoRecovery`, `RecoveryLaws`, `ContextTruncation`, `StackLaws` |
| authorization between agent and client | `Authorization`, `AuthorizationProtocol` |
| embedding cache | `EmbeddingCache`, `CacheLaws` |
| loop detector | `Similarity`, `LoopDetection`, `LoopLaws` |
| tool execution | `AgentTools`, `AgentLaws` |
| conversation memories | `Memories`, `MemoryLaws` |
| sequences, sets and stable sorting | `Sequences`, `Sorting` |

What cannot be seen is arbitrary: the base LLM is any function from the requests so far to a reply
or an error; the ids extracted from an error text, the signature of a tool call, the wording of the
summary prompt and of the agent's observations are any functions; tools, handlers and clients do
anything. Readings of the clock are parameters. An authorization request is not one method but a row
of steps, one for each of its locked sections and awaits, so that anything can happen in between.

Where a promise does not hold of the code, the exact condition is proved instead:

- The byte-window splitter does not end on every text unless its window is wide enough for the
  overlap and the widest characters (`WindowLoopEndsOnEveryText`, `WindowLoopEndsOnAsciiText`).
- Without automatic repair the recovering wrapper sends a list with issues if it is given one, in its
  first request and only there (`GenerateIsSafe`); the whole stack, if any of the lists that truncation
  can make of it has issues (`StackIsSafeIff`).
- A request can break if one starts under the id of another that is about to store or remove its
  entry, or waits with nothing sent; under any other id nothing can (`FreeIdsAreExact`).
- A configuration change to another mode than always-allow is kept, until the next change or the next
  "All", exactly if no request was told "All" before and has yet to act on it (`ModeIsKeptIff`, and
  `ChangeIsKeptIff` for every change); in particular a
  change to always-deny can end as always-allow (`DenyIsLost`). Apart from the mode it is lost exactly
  if such a request has read other settings and is about to write them back (`ChangeSurvivesIff`).
- A similarity of 1 means identical only up to the characters of strings and the way numbers are
  written (`ScoreIsOneIffAlike`).
- An empty batch evicts from an oversized cache, though it puts nothing (`BatchLeavesTheSame`).
- Truncating need not make a list shorter: it does exactly if at least two messages are to go and there
  are at least three (`TruncationShortensIff`).
- Under LFU a fresh entry may evict itself (`FreshEntryMayEvictItself`).
- A loop window of size 0 miscounts (`CountsAgreeExactlyWithAWindow`).
- A batch of messages whose summary fails is lost, and a summary that succeeds without text loses all
  the batches before it (`KeepsEverythingIffEverySummaryHasText`).

The agent stores assistant messages without their calls (`agent.rs:473-479`), so the LLM sees every
stored result that names its call as a system message only
(`StoredResultsReachTheLLMAsSystemMessages`).

## Model

| member | source | states |
|---|---|---|
| `Utf8.RetreatToBoundary` | crates/gola-core/src/rag/splitter.rs:113-115 | A loop that steps back to a character boundary stops at the last boundary at or before where it starts, provided its lower stop is one. |
| `Utf8.FloorIsNear` | crates/gola-core/src/rag/splitter.rs:74-76 | In a well-formed string a character boundary is at most three bytes back. |
| `Utf8.CutAtBoundary` | crates/gola-core/src/rag/splitter.rs:117 | Slicing a string at a character boundary leaves two well-formed strings, so no slice can panic. |
| `Utf8.MatchIsAtBoundaries` | crates/gola-core/src/rag/splitter.rs:50 | A separator can only match at character boundaries, so `split` never cuts a character. |
| `TextSplitting.SplitThenJoin` | crates/gola-core/src/rag/splitter.rs:50 | Splitting at a separator and joining with it gives the text back. |
| `TextSplitting.PiecesAreFree` | crates/gola-core/src/rag/splitter.rs:50 | No piece is longer than the text, and none still holds the separator. |
| `TextSplitting.TextSplitter.NextWindow` | crates/gola-core/src/rag/splitter.rs:109-132 | One round of the byte-window loop, with both backward loops: where the window ends and where the next one starts. |
| `TextSplitting.TextSplitter.SplitByLength` | crates/gola-core/src/rag/splitter.rs:105-136 | The byte-window loop computes the windows of the specification, on exactly the texts on which it ends. |
| `TextSplitting.TextSplitter.AbsorbPiece` | crates/gola-core/src/rag/splitter.rs:54-95 | One round of the loop over the pieces, with the flush, the overlap tail and the recursion into an oversized piece; what is carried over is stated by `OverlapIsCarried`. |
| `TextSplitting.TextSplitter.RecursiveSplit` | crates/gola-core/src/rag/splitter.rs:38-103 | The recursion over separators computes the chunks of the specification, on exactly the texts on which it ends. |
| `TextSplitting.TextSplitter.SplitText` | crates/gola-core/src/rag/splitter.rs:30-36 | A text that fits is returned whole; any other is split recursively. |
| `SplittingLaws.LoopEndsIffProgresses` | crates/gola-core/src/rag/splitter.rs:105-136 | The byte-window loop ends on a text if and only if every window starts strictly before the next; this is the precondition of the splitter. |
| `SplittingLaws.WindowLoopEndsOnEveryText` | crates/gola-core/src/rag/splitter.rs:105-136 | The loop ends on every string if and only if the chunk size is at least 4 without overlap and at least the overlap plus 7 with it. |
| `SplittingLaws.WindowLoopEndsOnAsciiText` | crates/gola-core/src/rag/splitter.rs:105-136 | It ends on every single-byte text if and only if the chunk size exceeds the overlap. |
| `SplittingLaws.SplitterEndsOnEveryText` | crates/gola-core/src/rag/splitter.rs:30-103 | The whole splitter, with the default separators, ends on every string under exactly the same condition. |
| `SplittingLaws.ByLengthCanBeUndone` | crates/gola-core/src/rag/splitter.rs:105-136 | The windows start strictly later each time, on character boundaries, leave no gap and reach the end; and the chunks without their overlaps, put together, are the text again. |
| `SplittingLaws.OverlapIsAsAsked` | crates/gola-core/src/rag/splitter.rs:121-129 | Neighbouring windows share the overlap asked for, or up to three bytes more to reach a boundary; exactly it for single-byte text. |
| `SplittingLaws.WindowsAreFull` | crates/gola-core/src/rag/splitter.rs:109-115 | Every window reaches the end of the text, or is within three bytes of the chunk size, and exactly that wide for single-byte text. |
| `SplittingLaws.OverlapIsCarried` | crates/gola-core/src/rag/splitter.rs:64-95 | When a piece does not fit behind the chunk being built, that chunk is finished; and if the piece fits into a chunk, the next one begins with the overlap of the one before, the separator and the piece. The overlap is a suffix at least as long as asked for, at most three bytes longer, and exactly so long for single-byte text, if the finished chunk is longer than the overlap. |
| `SplittingLaws.ChunksAreGreedy` | crates/gola-core/src/rag/splitter.rs:54-100 | When all pieces of a level fit, each chunk holds, behind what is carried over, as many consecutive pieces as fit: with the next one it would be longer than the chunk size. |
| `SplittingLaws.ChunksAreSound` | crates/gola-core/src/rag/splitter.rs:38-136 | For any separators, every chunk is well-formed, not empty, and at most the chunk size without overlap; with it, at most chunk size, overlap and longest separator together (three more for multi-byte text). |
| `SplittingLaws.ChunksKeepText` | crates/gola-core/src/rag/splitter.rs:38-103 | For any separators: the text without the bytes of the separators is a subsequence of the chunks without them, and equal to it without overlap. |
| `SplittingLaws.SplitterKeepsText` | crates/gola-core/src/rag/splitter.rs:30-136 | With the default separators no text but newlines and spaces is lost, and without overlap nothing is repeated. |
| `SplittingLaws.SplitterBoundsChunks` | crates/gola-core/src/rag/splitter.rs:30-136 | The bounds on chunks for the whole splitter with its default separators. |
| `MessageValidation.ReadMessage` | crates/gola-core/src/llm/message_validator.rs:115-147 | One round of the loop over the messages: what becomes of the pending calls, and which are found orphaned. |
| `MessageValidation.FindOrphanedToolCalls` | crates/gola-core/src/llm/message_validator.rs:111-153 | The loop with its pending list finds, in order, exactly the assistant messages with call ids that no tool result answers before the next user message, with those ids. |
| `MessageValidation.CollectAvailableIds` | crates/gola-core/src/llm/message_validator.rs:160-171 | Exactly the ids that some assistant message anywhere calls. |
| `MessageValidation.FindOrphanedToolResponses` | crates/gola-core/src/llm/message_validator.rs:156-185 | Exactly the tool results for ids that no assistant message calls, in order. |
| `MessageValidation.DetectIssues` | crates/gola-core/src/llm/message_validator.rs:76-108 | Both kinds of issues, the orphaned calls first. |
| `MessageValidation.IssuesAreTheIssues` | crates/gola-core/src/llm/message_validator.rs:76-108 | The issues are pairwise different, at most one for each message, and are exactly those the messages have. |
| `MessageValidation.NoIssuesIffIssueFree` | crates/gola-core/src/llm/message_validator.rs:76-108 | Nothing is reported if and only if every call is answered in time and every result has its call. |
| `MessageValidation.TruncateWithEllipsis` | crates/gola-core/src/llm/message_validator.rs:278-288 | Cuts at the last character boundary that leaves room for the ellipsis. |
| `MessageValidation.ShortenedFits` | crates/gola-core/src/llm/message_validator.rs:278-288 | The result is well-formed, fits the limit, and keeps all but the last few bytes that would fit. |
| `MessageValidation.FixOrphanedToolCalls` | crates/gola-core/src/llm/message_validator.rs:208-240 | Inserting one by one puts a block of synthetic results, in order, directly after the message; an index out of range is an error. |
| `MessageValidation.FixOrphanedToolResponse` | crates/gola-core/src/llm/message_validator.rs:243-274 | Overwrites the message in place by a system message with its shortened content; an index out of range is an error. |
| `MessageValidation.FixIssues` | crates/gola-core/src/llm/message_validator.rs:188-205 | Fixes the stably sorted issues, last index first, and stops at the first error. |
| `MessageValidation.MessageValidator.ValidateAndFix` | crates/gola-core/src/llm/message_validator.rs:45-73 | A list without issues is returned as it is; otherwise it is repaired, or refused if repair is off. |
| `RepairLaws.RepairSucceeds` | crates/gola-core/src/llm/message_validator.rs:188-274 | Fixing in descending order of index never meets an index out of range, and gives the list repaired message by message. |
| `RepairLaws.RepairConserves` | crates/gola-core/src/llm/message_validator.rs:188-274 | Every message keeps its place in the order and its content, except that unmatched results become system messages; directly after each stand one synthetic result for each unanswered id, and there is nothing else, so the length grows by just their number. |
| `RepairLaws.ConvertedKeepsContent` | crates/gola-core/src/llm/message_validator.rs:243-288 | An unmatched result becomes a system message that holds, after its introduction, the same content, or all but its end if that is longer than 2000 bytes. |
| `RepairLaws.IssueFreeIsUnchanged` | crates/gola-core/src/llm/message_validator.rs:45-73 | A list without issues is its own repair. |
| `RepairLaws.RepairIsComplete` | crates/gola-core/src/llm/message_validator.rs:45-275 | The repaired list has no issues, so repairing it again changes nothing. |
| `RepairLaws.AutoFixAlwaysSucceeds` | crates/gola-core/src/llm/message_validator.rs:45-73 | With automatic repair validation succeeds on every list; the result has no issues, and it is the list itself if that had none. |
| `RepairLaws.WithoutAutoFix` | crates/gola-core/src/llm/message_validator.rs:45-73 | Without it, exactly the lists without issues are accepted, unchanged. |
| `AutoRecovery.FindMissingCall` | crates/gola-core/src/llm/auto_recovery_llm.rs:108-134 | The first call of a message that the error names; later ones of the same message are not looked at. |
| `AutoRecovery.SkipResults` | crates/gola-core/src/llm/auto_recovery_llm.rs:115-122 | The first place after the message that does not hold a tool message. |
| `AutoRecovery.FindInsertions` | crates/gola-core/src/llm/auto_recovery_llm.rs:107-137 | One insertion for each assistant message that made a missing call, in order. |
| `AutoRecovery.ApplyInsertions` | crates/gola-core/src/llm/auto_recovery_llm.rs:140-144 | Applies the sorted insertions one by one. |
| `AutoRecovery.AutoRecoveryLLM.RecoverFromToolCallsError` | crates/gola-core/src/llm/auto_recovery_llm.rs:95-149 | Inserts a result for each missing call, then validates; with no ids extracted it only validates. |
| `AutoRecovery.AutoRecoveryLLM.AttemptRecovery` | crates/gola-core/src/llm/auto_recovery_llm.rs:152-174 | Sends the recovered messages with the same tools, or nothing if the error is not recoverable or validation fails. |
| `AutoRecovery.AutoRecoveryLLM.ProgressiveFallback` | crates/gola-core/src/llm/auto_recovery_llm.rs:177-237 | What each of the three fallbacks sends, never with tools; from the fourth on nothing is sent. What they send is stated by position in `FallbacksAreAsSaid`. |
| `AutoRecovery.AutoRecoveryLLM.Generate` | crates/gola-core/src/llm/auto_recovery_llm.rs:242-289 | The validation, the first call and the retry loop: the log of requests and the reply, for every behaviour of the base LLM. |
| `RecoveryLaws.InsertionKeepsIssueFree` | crates/gola-core/src/llm/auto_recovery_llm.rs:115-131 | A result for a call that is made, inserted anywhere in a list without issues, brings none. |
| `RecoveryLaws.InsertionsArePlaced` | crates/gola-core/src/llm/auto_recovery_llm.rs:107-137 | Every insertion answers the first missing call of some assistant message, and stands after it and after the tool messages that directly follow it. |
| `RecoveryLaws.MissingCallsGetResults` | crates/gola-core/src/llm/auto_recovery_llm.rs:107-137 | Every assistant message that made a missing call gets such an insertion. |
| `RecoveryLaws.RecoveryPlaces` | crates/gola-core/src/llm/auto_recovery_llm.rs:139-144 | The recovered list, place by place: nothing but the messages in order and the insertions, each directly before the message its index names, whatever was inserted before it. |
| `RecoveryLaws.RecoveryKeepsIssueFree` | crates/gola-core/src/llm/auto_recovery_llm.rs:95-149 | Recovering a list without issues, whatever ids are extracted, gives one without issues that still holds the original in order; the validation that follows accepts it as it is. |
| `RecoveryLaws.FallbackIsIssueFree` | crates/gola-core/src/llm/auto_recovery_llm.rs:177-237 | No fallback sends a list with issues, whatever list it starts from. |
| `RecoveryLaws.FallbacksAreAsSaid` | crates/gola-core/src/llm/auto_recovery_llm.rs:180-236 | By position: the first fallback sends every message, results as system messages and assistant messages without calls; the second the messages of user and assistant, all of them in order; the third the last message of the user alone, or the generic one if there is none; and there are no others. |
| `RecoveryLaws.ValidatedIsIssueFree` | crates/gola-core/src/llm/auto_recovery_llm.rs:148 | Whatever validation accepts has no issues, with or without automatic repair. |
| `RecoveryLaws.GenerateIsSafe` | crates/gola-core/src/llm/auto_recovery_llm.rs:242-289 | In every run, no request to the base LLM has an issue if and only if repair is automatic or the caller's list had none; no request after the first ever has one; and there are at least one and at most 1 + max_retries requests. |
| `RecoveryLaws.RequestsAreAsSaid` | crates/gola-core/src/llm/auto_recovery_llm.rs:242-289 | Every request of every run: first the repaired list, or the list as it is, with the tools; then, if the error is recoverable, the recovered list with the tools each time; otherwise fallback k as request k, without tools. |
| `RecoveryLaws.GenerateIsHonest` | crates/gola-core/src/llm/auto_recovery_llm.rs:242-289 | A success is the reply to the last request, and every request before it failed; an error is returned only if every request failed. |
| `RecoveryLaws.GivingUpTakesEveryRetry` | crates/gola-core/src/llm/auto_recovery_llm.rs:256-285 | With automatic repair an error is returned only after every retry was used: max_retries requests after a recoverable error, at most three after any other. |
| `ContextTruncation.ContextTruncatingLLM.constructor` | crates/gola-core/src/llm/context_truncation.rs:29-61 | The ratio is clamped: 0.1 if it is below, 0.9 if it is above, unchanged between; and at least one message is kept, whatever is asked for. |
| `ContextTruncation.ContextTruncatingLLM.SummarizeMessageContent` | crates/gola-core/src/llm/summarizer.rs:24-73 | Short content is returned without a call; long content is replaced by the reply to one request, or by a fallback text. |
| `ContextTruncation.ContextTruncatingLLM.TruncateMessages` | crates/gola-core/src/llm/context_truncation.rs:86-170 | The loop that summarises the tool messages, with the calls it makes, and then the truncation; too short a list is left alone. |
| `ContextTruncation.Truncate` | crates/gola-core/src/llm/context_truncation.rs:118-160 | The leading system message, a notice if anything was to be removed, and the most recent messages, of which one is always kept; how many is stated by `TruncatedExactly`. |
| `ContextTruncation.RemovalsRound` | crates/gola-core/src/llm/context_truncation.rs:131 | The number of messages to remove is the given part of them rounded up, so some are removed whenever there are any. |
| `Messages.DecimalCanBeRead` | crates/gola-core/src/llm/context_truncation.rs:146-149 | The number in the notice can be read back from its digits. |
| `ContextTruncation.ContextTruncatingLLM.Generate` | crates/gola-core/src/llm/context_truncation.rs:187-274 | The retry loop with its growing factor: both logs and the reply, for every behaviour of the base LLM. |
| `StackLaws.SummarisedShortens` | crates/gola-core/src/llm/context_truncation.rs:95-116 | Summarising changes only the contents of tool messages, and only to shorter ones; it makes at most one request for each tool message, and only requests for summaries. |
| `StackLaws.SummarisedExactly` | crates/gola-core/src/llm/context_truncation.rs:95-116 | Exactly the tool messages with more tokens than the threshold are summarised: one request for each, in order, for just its content; it is replaced if the summary is shorter, and everything else stays. |
| `StackLaws.TruncatedParts` | crates/gola-core/src/llm/context_truncation.rs:118-160 | One truncation keeps the leading system message and a proper suffix of the rest that holds the newest message, behind one notice that says a positive number. |
| `StackLaws.TruncatedExactly` | crates/gola-core/src/llm/context_truncation.rs:118-160 | With n messages after the leading one and c the least integer that is at least n times the factor, the last max(1, n - c) of them are kept, behind a notice of the number c. |
| `StackLaws.TruncationShortensIff` | crates/gola-core/src/llm/context_truncation.rs:118-160 | A truncation makes the list strictly shorter if and only if c is at least two and n at least three. |
| `StackLaws.TruncatedLength` | crates/gola-core/src/llm/context_truncation.rs:118-160 | It never makes the list longer, except to the leading system message and two messages. |
| `StackLaws.TruncatedKeepsShape` | crates/gola-core/src/llm/context_truncation.rs:86-170 | Over any number of rounds: the leading system message, at most two notices, then a suffix of the original in order with the newest message in it, changed only by shortening tool results. |
| `StackLaws.TruncatedCount` | crates/gola-core/src/llm/context_truncation.rs:118-160 | Truncation adds no tool message, which bounds the requests of later rounds. |
| `StackLaws.StackIsSafe` | crates/gola-core/src/llm/utils.rs:68-84 | Every run of the composed stack, whatever the base LLM replies: no request to it has an issue if repair is automatic, or none of the lists that truncation can cut the messages down to has one; each request to the recovering wrapper asks for a summary, or carries the caller's tools and messages in the shape above; with R retries and T tool messages there are at most R + 1 + R * T of them, and at most 1 + max_retries base calls for each. |
| `StackLaws.StackIsSafeIff` | crates/gola-core/src/llm/utils.rs:68-84 | The condition is exact and can be checked before the call: all runs with all base LLMs are free of issues if and only if repair is automatic or every list that the messages can be cut down to, within the retries, has no issue. |
| `StackLaws.ConversationRounds` | crates/gola-core/src/llm/context_truncation.rs:192-240 | The lists of a run, round by round: each is the one before truncated by the ratio plus a tenth for each round before, at most 0.8 from the second round on; all but the first are longer than the least length, and they end only with the retries or when the next would be too short. |
| `StackLaws.RetryingSendsInTurn` | crates/gola-core/src/llm/context_truncation.rs:187-274 | Every run sends these lists in turn, up to the contents of tool results, from the first on, with the caller's tools, and nothing else but requests for summaries in between. |
| `StackLaws.RetryingIsHonest` | crates/gola-core/src/llm/context_truncation.rs:207-262 | A success is the base LLM's reply to the last request of all; an attempt that succeeds, or fails for another reason than length or rate, is the last one. |
| `StackLaws.SameIssues` | crates/gola-core/src/llm/message_validator.rs:76-108 | Contents make no issues: lists that differ only in them are free of issues together. |
| `StackLaws.ShortenedConversations` | crates/gola-core/src/llm/context_truncation.rs:86-170 | Summarising tool results first changes neither how far a list is cut down nor whether the lists it is cut down to have issues. |
| `StackLaws.TooLongShowsIssues` | crates/gola-core/src/llm/context_truncation.rs:192-267 | With one particular base LLM and without automatic repair, a run sends no issue only if none of the lists the messages can be cut down to has one. |
| `Authorization.PollingAuthorizationHandler.HandleResponse` | crates/gola-core/src/polling_authorization_handler.rs:44-70 | Takes the sender of that id out of the map and sends the answer; an unknown id changes nothing. |
| `Authorization.PollingAuthorizationHandler.CancelAuthorization` | crates/gola-core/src/polling_authorization_handler.rs:112-127 | The same with the answer "No". |
| `Authorization.PollingAuthorizationHandler.SetConfig` | crates/gola-core/src/polling_authorization_handler.rs:77-79 | Replaces the configuration and nothing else. |
| `Authorization.PollingAuthorizationHandler.StorePending` | crates/gola-core/src/polling_authorization_handler.rs:182-196 | Stores a new entry with a fresh channel; an entry that was there under the id loses its sender, which closes its channel. |
| `Authorization.PollingAuthorizationHandler.CleanupPendingRequest` | crates/gola-core/src/polling_authorization_handler.rs:233-236 | Removes the entry of that id, whoever it belongs to, and drops its sender. |
| `Authorization.PollingAuthorizationHandler.CleanupExpiredRequests` | crates/gola-core/src/polling_authorization_handler.rs:130-150 | The loop answers "No" to exactly the expired requests and removes them; without a timeout it does nothing. |
| `Authorization.DenyOneMore` | crates/gola-core/src/polling_authorization_handler.rs:139-148 | Denying the expired requests one after the other, in any order, is denying them all at once. |
| `Authorization.ExpiredAreDenied` | crates/gola-core/src/polling_authorization_handler.rs:130-150 | A clean-up removes exactly the entries older than the timeout, and answers "No" to their owners and to nobody else. |
| `AuthorizationProtocol.NextKeepsInv` | crates/gola-core/src/polling_authorization_handler.rs:44-236 | Every step of requests, client and clean-up keeps the invariant of the shared map and channels, if requests start only under free ids: ids no request has that is about to store or remove its entry, or waits with nothing sent. |
| `AuthorizationProtocol.RunsKeepInv` | crates/gola-core/src/polling_authorization_handler.rs:161-236 | From any state with the invariant, it holds after every interleaving in which requests start under free ids. |
| `AuthorizationProtocol.ProtocolIsSafe` | crates/gola-core/src/polling_authorization_handler.rs:161-236 | In every interleaving in which requests start under free ids: a waiting request has its unused sender in the map, or exactly one answer in its channel and no sender; the channel-closed branch is never taken; a returned request has left no entry; and Yes or All is returned only if the configuration read at the start allowed everything, or the client gave that answer for that id after the request was stored. |
| `AuthorizationProtocol.StartDecides` | crates/gola-core/src/polling_authorization_handler.rs:165-175 | What the configuration decides without asking: "Yes" if disabled or always-allow, "No" if always-deny. |
| `AuthorizationProtocol.ResponseIsReturned` | crates/gola-core/src/polling_authorization_handler.rs:44-70 | The client is heard: a response to a request that was sent nothing yet, or its cancellation, is the answer that the request returns, in every run that follows, if it returns. |
| `AuthorizationProtocol.NoEarlyTimeout` | crates/gola-core/src/polling_authorization_handler.rs:197-201 | A request that waits does not time out before the configured timeout has passed, or thirty seconds if none is configured. |
| `AuthorizationProtocol.WaitingCanEnd` | crates/gola-core/src/polling_authorization_handler.rs:201-228 | A waiting request can always end: by receiving its answer, or by timing out once the clock has passed its deadline. |
| `AuthorizationProtocol.UnfreeStartBreaks` | crates/gola-core/src/polling_authorization_handler.rs:175-227 | Whenever the client is to be asked and the id is not free, starting under it leads to a request that finds its channel closed, in each of the four situations the other request can be in. |
| `AuthorizationProtocol.FreeIdsAreExact` | crates/gola-core/src/polling_authorization_handler.rs:161-236 | In any state with the invariant, starting a request under an id can never lead to a closed channel if and only if the id is free, or the configuration decides without asking. |
| `AuthorizationProtocol.SharedIdBreaksBoth` | crates/gola-core/src/polling_authorization_handler.rs:181-227 | Sharing can break both: when a request starts under the id of one that waits, the first fails with a closed channel, and its clean-up closes the second one's channel too. |
| `AuthorizationProtocol.ChangeStaysInForce` | crates/gola-core/src/polling_authorization_handler.rs:77-79 | In every run after a configuration change, up to the next change, the configuration is the new one but for a mode widened by "All", as long as no request writes back what it had read before the change; and those requests can still do so. When the mode is kept too is what `ModeIsKeptIff` states. |
| `AuthorizationProtocol.StaleWriteReplaces` | crates/gola-core/src/polling_authorization_handler.rs:206-211 | The first such request to write back replaces the change by what it had read, in always-allow mode. |
| `AuthorizationProtocol.ChangeSurvivesIff` | crates/gola-core/src/polling_authorization_handler.rs:206-211 | Everything in a change but the mode survives in every run, and the mode can only be widened, if and only if every request that was about to write back had read a configuration that differs from it in the mode at most. |
| `AuthorizationProtocol.ModeIsKeptIff` | crates/gola-core/src/polling_authorization_handler.rs:201-211 | The mode set by a change is kept, as long as nobody changes it again or answers "All", if and only if it is always-allow or no request was told "All" before: sent it, or about to read or write back the configuration. |
| `AuthorizationProtocol.ChangeIsKeptIff` | crates/gola-core/src/polling_authorization_handler.rs:201-211 | All of a change is kept so if and only if no request was told "All" before, or it sets always-allow and whatever may be written back agrees with it. |
| `AuthorizationProtocol.DenyIsLost` | crates/gola-core/src/polling_authorization_handler.rs:201-211 | A witness: a change to always-deny that no stale write threatens, and that still ends as always-allow, because a request had been sent "All". |
| `EmbeddingCache.InMemoryEmbeddingCache.EvictIfNeeded` | crates/gola-core/src/rag/cache.rs:141-177 | Drain, sort, drop, put back: min(old size, max size) entries are left, unchanged, and no evicted entry ranks above a survivor, ties and all, for all three strategies. |
| `EmbeddingCache.InMemoryEmbeddingCache.Get` | crates/gola-core/src/rag/cache.rs:196-205 | Returns the stored embedding, and updates only that entry's count and time. |
| `EmbeddingCache.InMemoryEmbeddingCache.Put` | crates/gola-core/src/rag/cache.rs:207-215 | Stores a new entry and evicts, from any cache, oversized ones too. |
| `EmbeddingCache.InMemoryEmbeddingCache.GetBatch` | crates/gola-core/src/rag/cache.rs:217-231 | The lookups one after the other, each returning what the cache held at the start. |
| `EmbeddingCache.InMemoryEmbeddingCache.PutBatch` | crates/gola-core/src/rag/cache.rs:233-253 | Lengths that differ are an error that changes nothing; otherwise all are stored, the last of equal keys winning, and one eviction follows. |
| `EmbeddingCache.InMemoryEmbeddingCache.Clear` | crates/gola-core/src/rag/cache.rs:255-259 | Leaves nothing. |
| `EmbeddingCache.InMemoryEmbeddingCache.Load` | crates/gola-core/src/rag/cache.rs:302-303 | Replaces the contents by the saved ones, of any size. |
| `EmbeddingCache.SortedEnumeration` | crates/gola-core/src/rag/cache.rs:152-163 | Sorting the drained entries by rank keeps each entry exactly once. |
| `EmbeddingCache.DrainingEvicts` | crates/gola-core/src/rag/cache.rs:152-171 | Dropping the first entries of a sorted enumeration is a proper eviction. |
| `CacheLaws.EvictionIsDetermined` | crates/gola-core/src/rag/cache.rs:141-177 | Without ties the outcome does not depend on the order in which the map gives its entries. |
| `CacheLaws.NothingToEvict` | crates/gola-core/src/rag/cache.rs:144-146 | A cache that fits is left as it is. |
| `CacheLaws.EvictionSpares` | crates/gola-core/src/rag/cache.rs:152-163 | In plain terms: under LRU no evicted entry was used later than a survivor, nor at the same time and created later; under FIFO none was created later; under LFU none was used more often. |
| `CacheLaws.EvictionRefines` | crates/gola-core/src/rag/cache.rs:141-177 | Under LRU and FIFO, eviction keeps exactly the most recent part of the list ordered by last use, or by last put. |
| `CacheLaws.StepRefines` | crates/gola-core/src/rag/cache.rs:196-253 | Each operation on an LRU or FIFO cache is the corresponding one on the list: store at the end, move to the end under LRU and leave in place under FIFO, keep the last max size, clear, or load; lookups return the same. |
| `CacheLaws.RunsRefine` | crates/gola-core/src/rag/cache.rs:196-253 | From an LRU or FIFO cache that refines a list, an empty one in particular, with a strictly increasing clock, after any run of get, put, batches, clear and load, the cache holds exactly the keys and last values of the bounded list, and every lookup returned what the list held. The list is a move-to-front list for LRU and a queue that lookups do not touch for FIFO. |
| `CacheLaws.BoundedThenPut` | crates/gola-core/src/rag/cache.rs:207-215 | Bounding the list before a put makes no difference to bounding it after. |
| `CacheLaws.BatchIsOneByOne` | crates/gola-core/src/rag/cache.rs:233-253 | On lists: a batch leaves what the puts one by one leave, evicting after each, if and only if it is not empty or the list fits. |
| `CacheLaws.SameListSameContents` | crates/gola-core/src/rag/cache.rs:196-205 | Two caches refined by the same list hold the same embeddings. |
| `CacheLaws.BatchLeavesTheSame` | crates/gola-core/src/rag/cache.rs:207-253 | From any cache that refines a list, oversized ones too, every outcome of a batch and every outcome of the puts one by one hold the same keys and values, whatever the clocks and the order of the map, if and only if the batch is not empty or the cache fits. |
| `CacheLaws.FreshEntryStays` | crates/gola-core/src/rag/cache.rs:207-215 | Under LRU and FIFO an entry just put, later than all others, survives the eviction unless the cache may hold nothing. |
| `CacheLaws.FreshEntryMayEvictItself` | crates/gola-core/src/rag/cache.rs:165-167 | Under LFU an entry just put may be evicted at once, if and only if the cache is then over its size. |
| `CacheLaws.UsesAreCounted` | crates/gola-core/src/rag/cache.rs:92-113 | Under every strategy, in every run, the count of an entry is the number of its uses since it was last put, counting the put. |
| `Similarity.CalculateArgumentSimilarity` | crates/gola-core/src/loop_detection/similarity.rs:11-25 | Computes the score of two JSON values of any depth. |
| `Similarity.CalculateObjectSimilarity` | crates/gola-core/src/loop_detection/similarity.rs:28-65 | The loop over the common keys, taken in any order, computes the score of two objects. |
| `Similarity.CalculateArraySimilarity` | crates/gola-core/src/loop_detection/similarity.rs:68-100 | The loop over the shared items computes the score of two arrays, of equal length or not. |
| `Similarity.KeySumInAnyOrder` | crates/gola-core/src/loop_detection/similarity.rs:44-55 | The sum over common keys is the same whichever key comes first. |
| `Similarity.StringSimilarityIsScore` | crates/gola-core/src/loop_detection/similarity.rs:103-135 | The score of strings lies between 0 and 1 and is symmetric. |
| `Similarity.NumberSimilarityIsScore` | crates/gola-core/src/loop_detection/similarity.rs:138-157 | The score of numbers lies between 0 and 1 and is symmetric. |
| `Similarity.ScoreIsFair` | crates/gola-core/src/loop_detection/similarity.rs:11-157 | For all nested values the score lies between 0 and 1 and is symmetric. |
| `Similarity.KindsScoreZero` | crates/gola-core/src/loop_detection/similarity.rs:16-24 | Different values of different kinds score 0. |
| `Similarity.StringScoreParts` | crates/gola-core/src/loop_detection/similarity.rs:103-135 | Different strings: 0.7 for the share of characters and 0.3 for the ratio of byte lengths; 0 if one is empty. |
| `Similarity.CharactersAreAll` | crates/gola-core/src/loop_detection/similarity.rs:117-118 | The characters of a string are exactly what begins at its character boundaries. |
| `Similarity.NumberScoreParts` | crates/gola-core/src/loop_detection/similarity.rs:138-157 | Different numbers: one minus the difference relative to the larger absolute value, but not below 0. |
| `Similarity.ObjectScoreParts` | crates/gola-core/src/loop_detection/similarity.rs:28-65 | Different objects: 0.6 for the share of keys and 0.4 for the mean score under the common keys, 0 if there are none. |
| `Similarity.ArrayScoreParts` | crates/gola-core/src/loop_detection/similarity.rs:68-100 | Different arrays: the mean score of the items if they are equally long; otherwise 0.3 for the ratio of lengths and 0.7 for the mean score of the items both have. |
| `Similarity.ScoreIsOneIffAlike` | crates/gola-core/src/loop_detection/similarity.rs:9-157 | For all nested values the score is 1 if and only if they are alike: equal, or numbers with the same float, or non-empty strings of the same length and character set, or arrays and objects of the same shape with alike parts. |
| `Similarity.OneDoesNotMeanEqual` | crates/gola-core/src/loop_detection/similarity.rs:11-135 | A witness that alike is not equal: two different strings that score 1. |
| `LoopDetection.PatternDetector.AddToolCall` | crates/gola-core/src/loop_detection/pattern_detector.rs:32-54 | Slides the window, updates the counts and reports a pattern: the whole new state, and which pattern. |
| `LoopDetection.PatternDetector.DetectPatterns` | crates/gola-core/src/loop_detection/pattern_detector.rs:57-74 | Exact matches come before similar ones, and these before suspicious ones. |
| `LoopDetection.CollectSimilarCalls` | crates/gola-core/src/loop_detection/pattern_detector.rs:106-120 | The loop from the newest call back collects exactly the earlier calls of the same tool with a score of at least 0.7, and their total. |
| `LoopDetection.PatternDetector.DetectSimilarPatterns` | crates/gola-core/src/loop_detection/pattern_detector.rs:102-146 | Reports count, average score and earliest step if there are enough similar calls; when that is, is stated by `SimilarLoopIff`. |
| `LoopDetection.PatternDetector.Clear` | crates/gola-core/src/loop_detection/pattern_detector.rs:221-225 | Leaves neither calls nor counts. |
| `LoopLaws.PushKeepsCounts` | crates/gola-core/src/loop_detection/pattern_detector.rs:32-50 | Adding a call keeps every count equal to the number of calls with that signature in the window, with no zero entries. |
| `LoopLaws.RunsAgree` | crates/gola-core/src/loop_detection/pattern_detector.rs:32-50 | After any run the window holds exactly the last calls, and the incremental counts equal a recount. |
| `LoopLaws.CountsAgreeExactlyWithAWindow` | crates/gola-core/src/loop_detection/pattern_detector.rs:32-50 | The counts agree with a recount after every run if and only if the window holds at least one call. |
| `LoopLaws.ExactLoopIffRepeated` | crates/gola-core/src/loop_detection/pattern_detector.rs:77-99 | An exact loop is reported if and only if the newest signature occurs at least threshold times in the window, with that very count and the step of its oldest occurrence there. |
| `LoopLaws.SimilarLoopIff` | crates/gola-core/src/loop_detection/pattern_detector.rs:102-146 | Over whole runs: a similar loop is reported if and only if there is no exact one and the last calls hold at least threshold - 1 of the same tool at another step with a score of at least 0.7; with that number plus one as count, their mean score, and the least of their steps; 1 and the newest step if there are none. |
| `LoopLaws.SuspiciousIff` | crates/gola-core/src/loop_detection/pattern_detector.rs:149-193 | A suspicious pattern is reported if and only if there is no loop and the tool was called at least three times among the last five calls, or within the time window; with that count. |
| `LoopLaws.SimilarLoopScore` | crates/gola-core/src/loop_detection/pattern_detector.rs:122-141 | Every reported similar loop has a score between 0.7 and 1. |
| `LoopLaws.EarliestStepIsLeast` | crates/gola-core/src/loop_detection/pattern_detector.rs:131-135 | The reported first occurrence is the least step among the similar calls. |
| `LoopLaws.LetThroughIsRare` | crates/gola-core/src/loop_detection/pattern_detector.rs:77-99 | A call that is not reported has fewer than threshold calls of its signature in its window. |
| `LoopLaws.GuardHolds` | crates/gola-core/src/loop_detection/pattern_detector.rs:32-99 | Among any calls that fit into one window, fewer than threshold of one signature are not reported. |
| `AgentTools.Agent.CheckToolAuthorization` | crates/gola-core/src/agent.rs:198-287 | Which answers, modes and standing approvals let a tool through, and what is remembered of the answer. |
| `AgentTools.Agent.AddToolObservation` | crates/gola-core/src/agent.rs:962-991 | Counts repeated errors, forgets them on success, and gives the result as a tool message to the memory, which may store it and fail all the same. |
| `AgentTools.Agent.SetConfig` | crates/gola-core/src/agent.rs:1046-1048 | Replaces the authorization mode and the RAG switch; approvals and counters stay. |
| `AgentTools.Agent.EnableRag` | crates/gola-core/src/agent.rs:289-292 | Sets both the switch and the system that RAG needs. |
| `AgentTools.Agent.DisableRag` | crates/gola-core/src/agent.rs:294-297 | Clears both. |
| `AgentTools.Agent.SetAuthorizationHandler` | crates/gola-core/src/agent.rs:173-184 | Sets or removes the handler; a standing approval stays. |
| `AgentTools.Agent.ResetAuthorizationState` | crates/gola-core/src/agent.rs:193-195 | Forgets the standing approval and nothing else. |
| `AgentTools.Agent.ClearLoopDetector` | crates/gola-core/src/agent.rs:1071-1073 | Forgets the tracked calls and their counts and nothing else. |
| `AgentTools.Agent.ExecuteGatedTool` | crates/gola-core/src/agent.rs:692-863 | The executors of code, RAG and generic tools: breaker, existence, gate, tool, counter and observation, in that order. |
| `AgentTools.Agent.CountOutcome` | crates/gola-core/src/agent.rs:843-851 | A success removes the tool's counter, a failure adds one to it. |
| `AgentTools.Agent.ExecuteControlPlaneTool` | crates/gola-core/src/agent.rs:910-960 | Control-plane tools are neither counted nor gated. |
| `AgentTools.Agent.HandleLoopDetection` | crates/gola-core/src/agent.rs:865-899 | A loop ends the execution with nothing changed; any other pattern would be executed as a generic tool. |
| `AgentTools.Agent.ExecuteTool` | crates/gola-core/src/agent.rs:668-690 | Loop guard first, then the executor for the kind of tool; what becomes of every call is stated by `EveryCallIsAccountedFor`. |
| `AgentLaws.GateIsHonest` | crates/gola-core/src/agent.rs:198-287 | The gate opens if and only if the mode is Allow, or the mode is Ask and an "All" still stands or a handler says yes now; and it leaves counters and executions alone. |
| `AgentLaws.GatedKeepsInv` | crates/gola-core/src/agent.rs:692-863 | A gated call keeps counters, log and standing approval consistent, and leaves the loop detector alone. |
| `AgentLaws.BreakerAndGateHold` | crates/gola-core/src/agent.rs:692-863 | In every run, with the configuration, RAG and the handler changing between calls, each tool's counter is its trailing run of failed executions and at most 2; and every execution had the mode Allow, a standing "All", or a "Yes" given for that tool just before. |
| `AgentLaws.EveryCallIsAccountedFor` | crates/gola-core/src/agent.rs:668-960 | Every call that is not terminated: the two control tools are run whatever the mode and the breaker, and change neither counters nor log nor approval; any other tool is run, once, with permission and observed as it came out, if and only if it failed less than twice in a row, exists, and the gate lets it in; otherwise nothing is run and a failure is observed. |
| `AgentLaws.EveryCallOfARunIsAccountedFor` | crates/gola-core/src/agent.rs:668-960 | The same for every call of every run, so no call of a code, RAG or generic tool gets around the breaker and the gate. |
| `AgentLaws.ErrorsAreCounted` | crates/gola-core/src/agent.rs:962-973 | The error counter is the number of times in a row that the last observation failed with the same content. |
| `AgentLaws.TrippedForGood` | crates/gola-core/src/agent.rs:692-863 | A tool that failed twice in a row is never executed again, whatever happens. |
| `AgentLaws.LoopGuardHolds` | crates/gola-core/src/agent.rs:668-690 | In every run the calls dispatched to any executor, gated or not, since the detector was last cleared are exactly those on which it reported no loop; so among any consecutive calls that fit into one window fewer than threshold of one signature are dispatched. |
| `AgentLaws.LoopsAreTerminated` | crates/gola-core/src/agent.rs:865-899 | A call is terminated exactly if the detector reports a loop, and dispatched exactly if not; when terminated, nothing is executed, asked or recorded, so the fallback of the loop handler is never reached. |
| `AgentLaws.TerminatedIff` | crates/gola-core/src/agent.rs:675-678 | A call is terminated if and only if its signature occurs as often among the last calls as the exact threshold says, or as many calls as the other threshold says are similar to it. |
| `Memories.BuildContext` | crates/gola-core/src/memory/summary_buffer.rs:120-142 | The backward search for the last tool-calling assistant and the two copying loops compute the context. |
| `Memories.SlidingWindowMemory.AddMessage` | crates/gola-core/src/memory/sliding_window.rs:34-40 | The oldest message leaves if there is no room, and the new one comes last. |
| `Memories.SlidingWindowMemory.GetContext` | crates/gola-core/src/memory/sliding_window.rs:42-68 | The context of the messages in the window. |
| `Memories.ConversationSummaryBufferMemory.Prune` | crates/gola-core/src/memory/summary_buffer.rs:50-76 | Takes out the older half when there are too many tokens, and asks once for a summary of it; if that fails the half is gone and the old summary stays. |
| `Memories.ConversationSummaryBufferMemory.AddMessage` | crates/gola-core/src/memory/summary_buffer.rs:104-107 | Adds the message, then prunes. |
| `Memories.ConversationSummaryBufferMemory.GetContext` | crates/gola-core/src/memory/summary_buffer.rs:109-145 | The summary, if there is one, as a system message before the context of the buffer. |
| `MemoryLaws.ContextOmitsOnlyOldResults` | crates/gola-core/src/memory/sliding_window.rs:42-68 | The context omits the tool results that precede a tool-calling assistant message, and nothing else. |
| `MemoryLaws.WindowHoldsTheLast` | crates/gola-core/src/memory/sliding_window.rs:34-40 | The window holds exactly the last max(1, max_messages) messages added. |
| `MemoryLaws.EveryMessageIsAccountedFor` | crates/gola-core/src/memory/summary_buffer.rs:50-107 | The batches taken out, in order, followed by the buffer are all the messages ever added. |
| `MemoryLaws.PrunedIff` | crates/gola-core/src/memory/summary_buffer.rs:50-76 | The buffer is pruned exactly if it then holds more tokens than the limit and at least two messages; by its older half, rounded down, with one request; an error is returned only if that failed. |
| `MemoryLaws.TokensAddUp` | crates/gola-core/src/memory/summary_buffer.rs:39-48 | Tokens are a quarter of the bytes of each content, rounded down, and add up. |
| `MemoryLaws.KeepsEverythingIffEverySummaryHasText` | crates/gola-core/src/memory/summary_buffer.rs:50-107 | What the summary still stands for followed by the buffer is everything ever added, if and only if every reply to a request for a summary was a success with some text. |
| `MemoryLaws.SummaryIsEmptyIffNothingKept` | crates/gola-core/src/memory/summary_buffer.rs:50-98 | The summary is empty if and only if no batch is kept: a batch is kept if its own summary succeeded and no success from then on was empty. |
| `MemoryLaws.EmptyRepliesLoseEverything` | crates/gola-core/src/memory/summary_buffer.rs:96-98 | If every reply is a success without content, no request fails and yet nothing taken out is kept. |
| `MemoryLaws.EachBatchIsSummarisedOnce` | crates/gola-core/src/memory/summary_buffer.rs:50-76 | One request for each batch, in order, made from exactly that batch and the text of the last successful reply before it; and the summary is the text of the last successful reply of all. |
| `MemoryLaws.StoredResultsReachTheLLMAsSystemMessages` | crates/gola-core/src/agent.rs:982-989 | When assistant messages are stored without their tool calls, as the agent stores them, validation turns every stored tool result that names its call into a system message and changes nothing else. |

## Left out

- LLM providers, HTTP and SSE servers, terminal UI, configuration loading, runtimes and installers: input and output around the modelled core.
- Waiting and backoff between retries, log output, the `log_issues` and `enable_memory_clearing` switches: they change no result.
- The texts of validation errors, and the branch for an issue without ids, which the data type of issues excludes.
- Rounding of `f32` and `f64`: scores, ratios and factors are real numbers.
- `Similarity.ScoreIsOneIffAlike`: does not model that large integers can round to one `f64`; the code also gives such a pair the score 1.
- Widths of `u32`, `u64` and `usize`: counters are unbounded, and the subtraction of the time window at `loop_detection/pattern_detector.rs:184` does not underflow.
- Lower-casing of error texts beyond ASCII letters.
- Strings are sequences of whole characters by their lead and continuation bytes; overlong forms and surrogates are not excluded, so the results hold for more texts than Rust has.
- Updating in place of message lists and cache entries: lists and maps are values held in fields and variables, so aliasing is not modelled.
- Concurrent calls of one cache: an operation is one step, though `put` takes the lock twice.
- `AuthorizationProtocol.WaitingCanEnd`: says that a waiting request can end, not that the scheduler lets it.
- `get_pending_authorizations`, the SSE authorization handler, and the polling of the timer: a timeout may happen once the deadline is reached and no answer is there.
- `AgentTools.Agent.ExecuteGatedTool`: does not model reading a tool's arguments and the wording of observations; the three executors, which differ only there and in which tools exist, are one method.
- `AgentTools.Agent.ExecuteControlPlaneTool`: does not model how a progress report is read; the observed content is arbitrary.
- The agent's history, trace and step loop, and recovery from loops that is never called.
- Statistics, the unused tracking of similar patterns, `calculate_pattern_similarity` and `are_tool_calls_similar`: they do not affect what is reported.
- Separator tables for programming languages and chunk headers: the laws hold for any separators where they say so.
- Saving the cache to a file, its statistics and the other caches; loading is modelled by its effect in memory.
- The plain summary memory: an easier variant of the summary buffer.
