# Verified model of Timem's decoders, request assembly and long-lived state

A Dafny model of the parts of the repository in which small steps have to add up to a promise over whole texts or whole
runs, with proofs of those promises.

* **Incremental decoders** (`core/agent/src/model_stream.rs`). Four parsers read network text in whatever pieces it
  arrives: the SSE decoder, the JSON and XML filters for public text, and the extractor of a finish summary from
  tool-call arguments. Each is a class with the source's fields and step loop, proved equal to a machine on values, and
  the machine is proved against a reference that knows the whole document: a JSON or XML tree, or a list of SSE lines.
  The modules are `JsonText`, `JsonWriters`, `SummaryArguments`, `SummaryDocuments`, `FinishSummary`, `FinishEvents`,
  `XmlStream`, `XmlChunks`, `XmlDocuments`, `XmlErrors`, `JsonStream`, `JsonDocuments`, `JsonErrors`, `JsonBadStrings`,
  `CompactJson`, `CompactDocuments`, `SseStream` and `SseReference`.
* **The preview of a response** (`Preview`, `TurnPreview`, `TurnShows`): attempts, revisions, optimistic finish and
  retraction.
* **Request assembly** (`core/agent/src/model_api.rs`): `CacheControl` with `CacheMarks`, and `Exchanges` with
  `PlanParts`, `ChatExchanges`, `ResponsesExchanges`, `AnthropicExchanges` and `AnthropicContents`, which render one plan for three
  providers.
* **Fast forms against simple ones**: audit retention through segment summaries (`Audit`, `AuditAppends`, `AuditRuns`) and
  the replay of prompt-cache checkpoints (`KvcReplay`, `KvcAccounts`).
* **State over whole runs**: `ProjectionCache`, `IntentQueue` with `QueueAnswers`, `EndpointAccounts` with
  `EndpointHistory` and `EndpointSamples`, `RoleLibrary` with `RoleProblems`, `RoleRecovery`, `FirstKept` and
  `RoleKeeping`, and `ProcessTree`.

`Text` and `Wrappers` hold what the others share. `dafny verify dfyconfig.toml` checks everything.

A Rust `char` is a Dafny `char`, which is a Unicode scalar value, and byte limits count UTF-8 bytes. A method that takes
`&mut self` is a method of a class; a pure function of the same module says what its new state is, and the lemmas are
about that function. What a text, a table or a history means is stated apart from it: by code point, by document or by
the list of events. Errors are values of a `Result`, an `Option` or a small datatype.

## Where the code does not do what one might expect

The model follows the code. For each case a lemma says for all inputs exactly when the expectation holds, and another
gives an input on which it fails.

* The summary extractor turns a lone high surrogate into U+FFFD but drops a lone low one, and a high one at the very end
  of the value (`SummaryDocuments.SummaryLossyIff`, `SummaryDocuments.LoneSurrogateIsDropped`).
* Summary arguments that arrive before the name of their call never reach the preview (`FinishSummary.FedIsAllIff`,
  `FinishSummary.LateNameLosesAll`), nor do those of a call whose name comes in pieces: the calls put the pieces together,
  the preview keeps the last one (`FinishSummary.HeardIsAllIff`, `FinishSummary.SplitNameLosesAll`).
* A string that does not decode makes one push of the JSON filter return an error but does not mark the stream as failed;
  later pushes go on, so the chunking can show (`JsonBadStrings.AllAgreeIff`, `JsonBadStrings.BadKeyHidesMembers`).
* The Chat body looks for delta ids in system messages too; the other two providers do not
  (`ChatExchanges.ChatTimelineIff`, `ChatExchanges.SomeSystemBlockTellsMore`).
* A stored audit summary can fit its file in bytes and still be wrong (`AuditRuns.PruneAfterRunIff` says exactly when the
  next prune is misled). It takes both a prune that stopped between its rewrite and its summary and an append that did not
  reach its summary: when all prunes complete, or all appends do, every later prune is the plain filter
  (`AuditRuns.PruneAfterRun`, `AuditRuns.StoppedAppendMisleads`).
* Of two Finished projections of one epoch the first to arrive stays, so caches can differ (`ProjectionCache.AllEndSameIff`,
  `ProjectionCache.TwoFinishesRace`).
* An append to a prompt need not read up to the newest checkpoint of the earlier request: one that takes up an earlier
  delta again can move the checkpoint back (`KvcReplay.AlwaysOverlapsIff`, `KvcReplay.TakenUpAgainFallsShort`).
* Truncating the latency ring keeps the oldest 2,000 samples, not the newest (`EndpointSamples.RunSamples`,
  `EndpointSamples.RunKeepsNewestIff`, `EndpointSamples.NewestSampleIsLost`).
* Role recovery remembers the id of a role before it looks at its name, so a role dropped for its name may still be named
  by a group of the repaired library, which then fails validation (`RoleKeeping.RecoveredPassesIff`,
  `RoleRecovery.DroppedRoleStaysNamed`).

## Classes

The table below holds the results first, then the smaller facts, then the operations. The constructors and inner steps of the
classes are listed here once, with their lines. The contract of each says that it moves the object as the pure step of its
module does, whole state and returned text or error included; the operations rest on them.

* `SummaryArguments.SummaryArgumentParser`, core/agent/src/model_stream.rs: `constructor` (620-628), `PushChar` (633-728), `PushEscaped` (680-710), `PushDigit` (711-726), `EmitCodeUnit` (732-758), `EmitChar` (760-771)
* `FinishSummary.NativeFinishSummaryStream`, core/agent/src/model_stream.rs: `constructor` (513-518), `PushFragment` (522-541)
* `XmlStream.XmlPublicTextStream`, core/agent/src/model_stream.rs: `constructor` (363-371), `DrainPending` (409-495), `TakeNext` (410-494), `TakeMarkup` (429-463), `ReadTag` (441-462)
* `JsonStream.JsonPublicTextStream`, core/agent/src/model_stream.rs: `constructor` (114-129), `PushChar` (140-221), `FinishString` (158-172), `AddToString` (173-192), `Structure` (194-220)
* `SseStream.OpenAiContentStream`, core/agent/src/model_stream.rs: `constructor` (8-16), `PushByte` (41-69), `CloseLine` (86-110)
* `Audit.AuditLog`, core/agent/src/audit.rs: `UpdateActive` (482-515), `SegmentSummary` (465-480), `PruneAt` (576-588)
* `ProjectionCache.TurnProjectionCache`, bridges/http_websocket/src/lib.rs: `Stale` (74-93)
* `IntentQueue.NextTurnIntentQueue`, bridges/http_websocket/src/lib.rs: `constructor` (303-310)

## Model

| member | source | states |
|---|---|---|
| `JsonWriters.WrittenDecodes` | core/agent/src/model_stream.rs:158-190 | however a string is written, each character raw, as a short escape, as `\uXXXX` or as a pair of them, the decoder reads that string |
| `JsonWriters.SummaryWritten` | core/agent/src/model_stream.rs:631-771 | so however the first `summary` of an object is written, the summary parser emits that string |
| `JsonWriters.SerializedRoundTrip` | core/agent/src/model_stream.rs:158-190 | what a serializer writes, short escapes where there is one, is read back as the string it wrote |
| `SummaryDocuments.ObjectSummary` | core/agent/src/model_stream.rs:631-771 | for any JSON object of any layout, any member values and anything behind it: what is emitted is what the first usable `summary` value says |
| `SummaryDocuments.SummaryRoundTrip` | core/agent/src/model_stream.rs:631-771 | whatever JSON spelling of whatever string the first `summary` has, exactly that string is emitted |
| `SummaryDocuments.SummaryLossyIff` | core/agent/src/model_stream.rs:732-771 | unpaired surrogates: the text is the lossy UTF-16 decoding if and only if no surrogate is dropped (a lone low one, or a high one at the very end) |
| `SummaryDocuments.LoneSurrogateIsDropped` | core/agent/src/model_stream.rs:732-771 | inputs on which it fails: an object whose summary is one lone low surrogate emits nothing, the lossy decoder gives U+FFFD |
| `SummaryDocuments.SomeSummaryIsDropped` | core/agent/src/model_stream.rs:732-771 | a concrete such object |
| `SummaryDocuments.HeardIsLossyIff` | core/agent/src/model_stream.rs:732-771 | the same on code units: agreement with the lossy decoder exactly when nothing is dropped |
| `SummaryDocuments.Extract` | core/agent/src/model_stream.rs:631-771 | a parser object fed any chunks emits the text of one push of their concatenation |
| `FinishSummary.CallsHoldFragments` | core/agent/src/model_api.rs:1852-1881 | below the limit, call i holds exactly the concatenated ids, names and arguments of index i, for every interleaving |
| `FinishSummary.AccumulatedIff` | core/agent/src/model_api.rs:1852-1881 | for chunks with or without an index: the limit error comes exactly when some chunk's place reaches the limit, where a chunk without one opens a new place behind all before it; otherwise every place holds what was said to it |
| `FinishSummary.PreviewReads` | core/agent/src/model_stream.rs:521-596 | for any chunks: the preview knows the last piece of every name, and its parser reads exactly the arguments that arrive while the last piece of their call's name is `task_finished` |
| `FinishSummary.HeardIsAllIff` | core/agent/src/model_stream.rs:522-541 | when nothing of another call is heard, the arguments of a call are heard in full exactly when the last piece of its name is `task_finished` whenever some of them arrive |
| `FinishSummary.SplitNameLosesAll` | core/agent/src/model_api.rs:1852-1881 | inputs on which they are not: the name of the finish in any two pieces gives a complete finish call and an empty preview |
| `FinishSummary.FedIsAllIff` | core/agent/src/model_stream.rs:522-541 | no argument text of a call is lost to the preview exactly when its name arrives no later than its first arguments |
| `FinishSummary.PreviewFollows` | core/agent/src/model_stream.rs:521-596 | so with whole names and one possible finish the preview parser reads exactly the arguments that arrive with or after the name |
| `FinishSummary.PreviewAll` | core/agent/src/model_stream.rs:519-596 | a finder object fed any grouping of any indexed fragments into events emits the summary of what is heard; when nothing of another call is heard, that is the arguments the accumulator holds exactly when the name is whole whenever some arrive, and with whole names exactly when the name comes first |
| `FinishSummary.LateNameLosesAll` | core/agent/src/model_stream.rs:522-541 | an input on which the two differ: a name behind its arguments gives a complete call and an empty preview |
| `FinishSummary.PreviewIsSummary` | core/agent/src/model_stream.rs:519-596 | so when those arguments are an object whose `summary` denotes a string, the preview is that string |
| `FinishEvents.EventsAgree` | core/agent/src/model_stream.rs:543-596 | for any events: the names known and the text heard are those said in the events themselves, Chat chunks with their index, announced function-call items and argument deltas by item id |
| `FinishEvents.PreviewEvents` | core/agent/src/model_stream.rs:519-596 | a finder object fed any events, Chat, Responses or both, emits what the argument parser extracts from the arguments of calls last named `task_finished`, in order |
| `FinishEvents.ItemHeard` | core/agent/src/model_stream.rs:568-596 | behind any events, of an announced item named `task_finished` every delta is heard, and of any other item none |
| `FinishEvents.ItemIsSummary` | core/agent/src/model_stream.rs:568-596 | so when the deltas of such an item are an object whose `summary` denotes a string, the preview is that string |
| `XmlChunks.DecideStable` | core/agent/src/model_stream.rs:409-495 | text that arrives later never changes a decision already taken: the hold-back rules are exact |
| `XmlChunks.DrainMore` | core/agent/src/model_stream.rs:409-495 | draining before and after more text arrives is draining once |
| `XmlChunks.FreshChunksAgree` | core/agent/src/model_stream.rs:388-495 | for every chunking of every text: same failure with exactly one push reporting it, and within 1 MiB the same text, error, stack, CDATA flag and held-back text as one push |
| `XmlChunks.Feed` | core/agent/src/model_stream.rs:388-495 | a filter object fed chunk by chunk gives that result |
| `XmlDocuments.DocumentEmitsPublicText` | core/agent/src/model_stream.rs:409-495 | for every well-formed element tree under an assistant root and any chunking: exactly what the text directly inside the public fields denotes, in any mix of characters, references and CDATA sections, is emitted in document order, without error |
| `XmlDocuments.EscapeRoundTrip` | core/agent/src/capability.rs:1059-1063 | so escaping any text and putting it in a public field emits exactly that text, for any chunking (XML 1.0 section 4.6) |
| `XmlDocuments.MarkedRoundTrip` | core/agent/src/model_stream.rs:409-495 | any mix of characters and references in a public field emits exactly what it denotes, for any chunking |
| `XmlErrors.StrayFails` | core/agent/src/model_stream.rs:441-475 | whatever stands outside the root, text, another element or an end tag, ends every chunking with the same error and no text |
| `XmlErrors.StrayBehindFails` | core/agent/src/model_stream.rs:441-475 | so it does behind a whole document, whose public text has been emitted |
| `XmlErrors.WrongEndFails` | core/agent/src/model_stream.rs:441-450 | an end tag of another name ends every chunking with a mismatch behind the public text before it |
| `XmlDocuments.CDataRoundTrip` | core/agent/src/model_stream.rs:411-435 | so does a CDATA section around any text without `]]>` (XML 1.0 section 2.7) |
| `JsonDocuments.DocumentEmitsPublicText` | core/agent/src/model_stream.rs:130-223 | for every JSON object of at most 1 MiB whose root keys and public strings decode, and any chunking: exactly the decoded root-level `free_talk` and `final_answer` strings, in order, and nothing nested |
| `JsonErrors.OtherStartFails` | core/agent/src/model_stream.rs:140-157 | a text whose first character besides whitespace does not open an object ends every chunking with that error and no text |
| `JsonErrors.TrailingFails` | core/agent/src/model_stream.rs:140-157 | anything but whitespace behind a document ends every chunking with an error, and the public text of the document is emitted all the same |
| `JsonErrors.TooLargeFails` | core/agent/src/model_stream.rs:130-139 | chunks of more than 1 MiB in all end in failure, whatever they hold |
| `JsonBadStrings.AllAgreeIff` | core/agent/src/model_stream.rs:130-223 | no chunking of a text of at most 1 MiB can be told from another if and only if a single push meets no undecodable string or what stands behind it is inert: no quote, brace or bracket, and behind a bad key no colon without a later comma, behind a bad public value no colon or comma at all |
| `JsonBadStrings.BadKeyHidesMembers` | core/agent/src/model_stream.rs:157-172 | behind any undecodable first key, one push emits nothing of the members that follow while a push that starts there emits all their public text |
| `CompactDocuments.CompactIsBare` | core/agent/src/capability.rs:1281-1307 | compacting a document gives the same tree without its layout, and every string in its own spelling |
| `CompactJson.CompactReadsTheSame` | core/agent/src/capability.rs:1281-1307 | a text the filter reads without an error reads the same after compaction, from any state: same text, same state |
| `CompactJson.CompactDocument` | core/agent/src/capability.rs:1281-1307 | compacting a document first changes nothing the filter emits, for any chunking of the compacted text |
| `SseStream.RunBound` | core/agent/src/model_stream.rs:32-110 | over every run held line plus data stay within 4 MiB, the event counter counts the emitted events, and at most one error is returned, which stops the stream |
| `SseReference.DecodesReference` | core/agent/src/model_stream.rs:32-110 | a whole stream decodes as the reference does: split on CR LF, LF or CR, group by blank lines, join `data:` fields, stop at `[DONE]` or the first bad event (WHATWG HTML sections 9.2.5 and 9.2.6) |
| `SseReference.Decode` | core/agent/src/model_stream.rs:32-110 | a decoder object fed any chunking gives the events and errors of that reference |
| `Preview.RunSound` | core/agent/src/model_stream.rs:253-360 | over every run: visible text is non-empty and at most 1 MiB, attempt and revision never fall, and a changed preview has a higher revision |
| `Preview.SettledIsStable` | core/agent/src/model_stream.rs:253-360 | after a preview settled, what is visible is that same preview, nothing, or the text of a later attempt |
| `TurnShows.TakenBackStaysHidden` | core/agent/src/model_stream.rs:785-861 | in every run of a turn: once an attempt is retracted, rejected or grown too large, nothing of it is on display in any later state |
| `TurnShows.CancelledShowsNothing` | core/agent/src/model_stream.rs:355-360 | after a cancellation nothing is visible until the next attempt begins, whatever else happens |
| `TurnShows.AttemptSettles` | core/agent/src/model_stream.rs:785-830 | an attempt that streams a text in any pieces and is accepted shows exactly that text, settled as final or intermediate |
| `TurnShows.FirstTextReplaces` | core/agent/src/model_stream.rs:792-812 | the first text of an attempt takes the place of what was on display and of the note of an interruption |
| `TurnShows.InterruptionFreezes` | core/agent/src/model_stream.rs:792-856 | an interruption leaves on display what is there and lets nothing more of the attempt in |
| `TurnPreview.TurnRunKeeps` | core/agent/src/model_stream.rs:785-861 | what holds over all runs of the response state holds over all runs of a turn |
| `TurnPreview.GivenUpNeverFinal` | core/agent/src/model_stream.rs:785-861 | an attempt interrupted, retracted, rejected or grown too large before it was final never becomes final, whatever follows |
| `TurnPreview.NoRunRevives` | core/agent/src/model_stream.rs:785-861 | so in every run of a turn from its start: what it gives up before it is final never becomes final later |
| `TurnPreview.OnlyConfirmationMakesFinal` | core/agent/src/model_stream.rs:813-852 | only acceptance as final or a confirmed finish makes a preview final, with the text as it was streamed |
| `TurnPreview.FinalWasConfirmed` | core/agent/src/model_stream.rs:785-861 | a final preview seen in any run of a turn was confirmed by one step of that run, for that attempt and with exactly that text on display |
| `TurnPreview.OptimisticFinish` | core/agent/src/model_stream.rs:792-852 | a finish summary streamed in any pieces stays provisional until resolved, and then settles as exactly the whole summary |
| `CacheControl.RemoveFirstStrips` | core/agent/src/model_api.rs:1184-1195 | nothing but marks ever goes: without its marks the value is unchanged |
| `CacheMarks.CountIsPlaces` | core/agent/src/model_api.rs:1168-1180 | the count is the number of places, paths into the body, at which an object has the field `cache_control` |
| `CacheControl.Enforce` | core/agent/src/model_api.rs:1197-1220 | ends on every body with at most four marks or none left in messages, system and tools; system and tools are touched only in that order; nothing but excess marks goes |
| `Exchanges.PlanBlocks` | core/agent/src/model_api.rs:713-779 | taking the exchanges out leaves the blocks as they were, the trailers moved to the end |
| `Exchanges.PlanExchanges` | core/agent/src/model_api.rs:675-684 | the exchanges of a delta appear, in their order, once for every block with its id |
| `Exchanges.EveryExchangeOnce` | core/agent/src/model_api.rs:675-684 | with distinct delta ids each exchange whose id occurs appears exactly once, and no other |
| `Exchanges.PlanFollows` | core/agent/src/model_api.rs:729-736 | every exchange stands behind the block with its delta id, with only exchanges of that id between |
| `Exchanges.TimelineWithoutExchanges` | core/agent/src/model_api.rs:713-830 | the user text of the timeline is the user blocks, trailers last |
| `ChatExchanges.ChatWithoutExchanges` | core/agent/src/model_api.rs:713-740 | without exchange messages a Chat body is the prompt again, cache marks included |
| `ChatExchanges.ChatTimelineIff` | core/agent/src/model_api.rs:686-740 | a Chat body tells the common timeline if and only if no system block brings exchange moments of its own |
| `ChatExchanges.SystemBlockTellsMore` | core/agent/src/model_api.rs:729-736 | inputs on which it fails: a system block with the delta id of an exchange that says something |
| `ChatExchanges.SomeSystemBlockTellsMore` | core/agent/src/model_api.rs:729-736 | a concrete such block, with a delta marker in front, and exchange |
| `ResponsesExchanges.ResponsesTimeline` | core/agent/src/model_api.rs:742-779 | a Responses input tells the common timeline |
| `AnthropicExchanges.AnthropicTimeline` | core/agent/src/model_api.rs:781-830 | Anthropic messages tell the common timeline, although the grouping differs |
| `AnthropicContents.AnthropicHolds` | core/agent/src/model_api.rs:781-830 | the messages hold, in order and nothing else, every user block with its cache mark and every exchange with its texts, inputs, results and the error flags of the results |
| `AuditRuns.EveryRunSound` | core/agent/src/audit.rs:429-592 | over every run of appends and prunes, complete or stopped before, between or inside segments, a stored summary counts exactly the records it was told of: those still in the file and those dropped since |
| `AuditRuns.PrunedIff` | core/agent/src/audit.rs:526-588 | deciding one segment by its summary is filtering its records if and only if the summary does not mislead: not (as many bytes uncounted as dropped, and the counted bounds decide wrongly for an uncounted record); and the exact number reported |
| `AuditRuns.PruneAfterRunIff` | core/agent/src/audit.rs:568-592 | after every such run the next prune keeps exactly the records with cutoff <= time <= now, in order, if and only if the summary of no segment misleads it; and the exact number it reports |
| `AuditRuns.SummariesTrue` | core/agent/src/audit.rs:465-524 | after every run whose prunes all complete, and after every run whose appends all complete with a time, a stored summary whose byte count fits its file is a rescan of it |
| `AuditRuns.PruneAfterRun` | core/agent/src/audit.rs:568-592 | so after those runs pruning always keeps exactly the records of its window, in order, and returns how many it dropped |
| `AuditRuns.StoppedAppendMisleads` | core/agent/src/audit.rs:556-563 | a run that misleads the next prune: a prune stopped behind its rewrite, then an append stopped before its summary; by the rows above it takes both |
| `AuditRuns.StaleLoses` | core/agent/src/audit.rs:568-592 | what it loses: the next prune throws away a record of its window |
| `ProjectionCache.RunOnlyMovesOn` | bridges/http_websocket/src/lib.rs:56-93 | over any deliveries: the epoch never goes back, the session never changes, a finished turn stays, the revision counts the applied ones |
| `ProjectionCache.Convergence` | bridges/http_websocket/src/lib.rs:56-93 | deliveries of one session whose highest epoch has one turn id and one Finished projection end in that projection, whatever their order, their duplicates and the earlier epochs |
| `ProjectionCache.AllEndSameIff` | bridges/http_websocket/src/lib.rs:56-93 | all deliveries of a set of projections end the same if and only if it has one session and its highest epoch holds a single projection, or one turn id and exactly one Finished projection |
| `ProjectionCache.TwoFinishesRace` | bridges/http_websocket/src/lib.rs:74-93 | two different Finished projections of one epoch: the first to arrive stays |
| `IntentQueue.EveryRunKept` | bridges/http_websocket/src/lib.rs:338-394 | over every run: distinct ids, length within capacity, rising numbers; popped then queued is accepted without removed, in order; the revision counts the changes |
| `IntentQueue.FirstInFirstOut` | bridges/http_websocket/src/lib.rs:338-394 | intents are popped in the order of acceptance and each accepted intent is exactly one of popped, removed or queued |
| `KvcReplay.ReadIsShared` | scripts/kvc_replay.py:338-367 | every request of a run reads the length of a text it really shares with an earlier request |
| `KvcReplay.ReadPlusCreatedFits` | scripts/kvc_replay.py:359-367 | read plus created never exceeds the request |
| `KvcAccounts.ReadIsLongestFound` | scripts/kvc_replay.py:346-358 | a request reads the longest stored prefix that one of its marks finds within twenty blocks, and nothing when none finds any |
| `KvcAccounts.CreatedReachesLastNew` | scripts/kvc_replay.py:359-363 | read plus created reaches exactly to the longest marked prefix inside the request that is not stored, or as far as was read if that is further |
| `KvcAccounts.FirstCreatesAll` | scripts/kvc_replay.py:338-367 | so the first request of a run reads nothing and creates everything up to its last mark inside the request |
| `KvcAccounts.CheckpointMarksAre` | scripts/kvc_replay.py:284-295 | exactly the system block and the last so many multiples of the threshold among the stable segments are marked |
| `KvcReplay.NewestIsNewest` | scripts/kvc_replay.py:288-295 | with a checkpoint to place the newest one is marked, and no mark lies behind it |
| `KvcReplay.CheckpointStays` | scripts/kvc_replay.py:288-295 | with two checkpoints the newest one is marked again while at most `threshold` stable segments were added |
| `KvcReplay.AlwaysOverlapsIff` | scripts/kvc_replay.py:270-367 | a prompt that goes on from an earlier one reads at least up to the newest checkpoint of the earlier one in every run, whatever comes before, between and behind, if and only if its plan has a mark at that checkpoint or less than twenty blocks behind it |
| `KvcReplay.CheckpointsOverlap` | scripts/kvc_replay.py:270-367 | so it does in every run with two or more checkpoints, when the append keeps the stable segments in front and adds at most `threshold` of them |
| `KvcReplay.AppendingKeepsStableIff` | scripts/kvc_replay.py:270-287 | an append keeps the stable segments in front if and only if the new last delta has no older response outside the old last delta and, unless the last delta stays, no response of the old last delta stands before one of another delta |
| `KvcReplay.TakenUpAgainFallsShort` | scripts/kvc_replay.py:270-297 | an input without overlap, an append that takes up an earlier delta again: its newest checkpoint moves back and, whatever is stored, it reads less than the earlier checkpoint |
| `EndpointAccounts.NextKeeps` | applications/timem/src/debug_session.rs:473-654 | no event changes what an endpoint's requests have over its outcomes and workers in flight |
| `EndpointAccounts.RunBalances` | applications/timem/src/debug_session.rs:388-654 | until a reload every endpoint of every session keeps requests = successes + failures + its workers in flight |
| `EndpointHistory.AccountsAre` | applications/timem/src/debug_session.rs:473-654 | after any events of a new session each endpoint counts the requests made while it was home, holds the oldest latencies of those answered and counts those failed or given up: all said of the events alone |
| `EndpointAccounts.RunCovers` | applications/timem/src/debug_session.rs:250-402 | saves and reloads included, requests >= successes + failures + workers in flight |
| `EndpointAccounts.ReloadMisses` | applications/timem/src/debug_session.rs:250-311 | what a reload leaves unbalanced is exactly what was in flight when it was saved |
| `EndpointAccounts.SuccessGoesHome` | applications/timem/src/debug_session.rs:473-613 | a success is credited to the endpoint that counted the request, wherever its worker moved meanwhile |
| `EndpointAccounts.FailureGoesHome` | applications/timem/src/debug_session.rs:473-626 | so is a failure, and a request given up for the next one |
| `EndpointSamples.RunSamples` | applications/timem/src/debug_session.rs:597-613 | over every run the latencies held for an endpoint are the first 2,000 of all successes credited to it, in order |
| `EndpointSamples.RunKeepsNewestIff` | applications/timem/src/debug_session.rs:597-613 | so over every run an endpoint holds its newest 2,000 samples if and only if there are no more, or each held sample equals the one that came as many successes later as there are too many |
| `EndpointSamples.NewestSampleIsLost` | applications/timem/src/debug_session.rs:604-611 | a run on which they are not: after 2,001 requests the first latency is there and the last is not |
| `RoleLibrary.ProblemIff` | applications/timem/src/worker_roles.rs:126-168 | a library passes exactly when it is within its limits, its entries are acceptable, ids and lower-cased names are distinct, and every placed role exists and is placed once |
| `RoleProblems.ProblemIsFirst` | applications/timem/src/worker_roles.rs:126-168 | validation reports a limit that is passed, or else the problem of the first role that has one, or else that of the first group or of the first place in it |
| `RoleRecovery.PlacedOnce` | applications/timem/src/worker_roles.rs:197-211 | every role id is placed at most once, and only ids of acceptable roles are |
| `RoleRecovery.ValidIsKept` | applications/timem/src/worker_roles.rs:171-213 | recovery is the identity on libraries that pass validation |
| `RoleKeeping.RolesKept` | applications/timem/src/worker_roles.rs:182-195 | the kept roles are, in the order of the file, exactly those that are the first acceptable one with their id and of those the first with their lower-cased name |
| `RoleKeeping.GroupsKept` | applications/timem/src/worker_roles.rs:197-211 | the kept groups are the same of the groups, in the order of the file, changed in their role ids only |
| `RoleKeeping.RecoveredPassesIff` | applications/timem/src/worker_roles.rs:171-213 | the result passes validation if and only if no kept group names, in the file, the id of a role whose name an earlier role has taken: a condition on the damaged library alone |
| `RoleRecovery.DroppedRoleStaysNamed` | applications/timem/src/worker_roles.rs:185-192 | such a library: its recovered form still names the dropped role |
| `ProcessTree.Collect` | scripts/runtime_io_guard.py:118-128 | for any parent map, circles included, the loop ends with the root and exactly its transitive descendants, each once and behind its parent |
| `JsonText.EscapeAllMeans` | core/agent/src/model_stream.rs:158-190 | every string of Unicode scalar values has a spelling (RFC 8259 section 7) that the string decoder takes for it, so results about spellings speak of every string |
| `JsonText.DecodeSpelling` | core/agent/src/model_stream.rs:158-190 | the string decoder returns what any mix of raw characters, short escapes, `\uXXXX` and surrogate pairs denotes, and nothing exactly when a surrogate has no partner |
| `JsonText.DecodableIsSpelling` | core/agent/src/model_stream.rs:158-190 | the converse: whatever the decoder accepts is such a spelling, denoting the decoded string |
| `JsonWriters.ShortIff` | core/agent/src/model_stream.rs:693-704 | the short escapes by code point: a backslash and a letter stand for exactly the characters of the table of RFC 8259 section 7 |
| `JsonWriters.NumberIff` | core/agent/src/model_stream.rs:711-726 | four hexadecimal digits in either case have their positional value, and nothing else is accepted |
| `JsonWriters.DecodedIsWritten` | core/agent/src/model_stream.rs:158-190 | the converse: what the decoder accepts is some way of writing what it reads |
| `SummaryArguments.Run` | core/agent/src/model_stream.rs:631-731 | every reachable parser state is well formed: no pending high surrogate outside its range, at most four digits held |
| `SummaryArguments.RunConcat` | core/agent/src/model_stream.rs:631-731 | the split of the text into pushes is invisible in the final state and in the emitted text |
| `FinishSummary.DecimalRoundTrip` | core/agent/src/model_stream.rs:551-566 | the decimal keys of tool-call indexes are injective: reading one back gives the index |
| `XmlStream.Decide` | core/agent/src/model_stream.rs:409-495 | every decision consumes at least one and at most all held characters, so the drain loop ends |
| `XmlDocuments.EscapeFirst` | core/agent/src/capability.rs:1059-1063 | three whole-text replacements in this order escape each character once: no ampersand is escaped twice |
| `XmlDocuments.EntityMeant` | core/agent/src/model_stream.rs:467-490 | the five predefined entities by code point (XML 1.0 section 4.6); an unknown reference denotes its own text |
| `XmlErrors.TooDeepStops` | core/agent/src/model_stream.rs:451-462 | a start tag at depth 64 is refused |
| `JsonStream.RunConcat` | core/agent/src/model_stream.rs:130-223 | reading in two goes is reading once, unless the first stopped on an error |
| `JsonStream.ChunksAgree` | core/agent/src/model_stream.rs:130-223 | from any state, any chunking of a text whose single push meets no undecodable string gives the result of that push |
| `JsonErrors.LastPushTooLarge` | core/agent/src/model_stream.rs:130-139 | the push that goes beyond 1 MiB emits nothing and says so |
| `JsonBadStrings.SomeBadKey` | core/agent/src/model_stream.rs:157-172 | such a key |
| `SseStream.RunConcat` | core/agent/src/model_stream.rs:32-110 | the state left by one push is all the next one depends on |
| `SseReference.OptionalSpace` | core/agent/src/model_stream.rs:86-110 | one space behind the colon of a data field is optional: with and without it a line adds the same value |
| `TurnShows.OtherAttemptsChangeNothing` | core/agent/src/model_stream.rs:261-354 | a step that names another attempt than the current one changes nothing |
| `TurnShows.OverTakesNoMore` | core/agent/src/model_stream.rs:293-360 | an attempt that settled, was retracted or cancelled takes no more text |
| `TurnShows.RevisionCounts` | core/agent/src/model_stream.rs:253-360 | the revision counts the changes of what is on display; only a cancellation counts without one |
| `TurnShows.FirstTextTooLarge` | core/agent/src/model_stream.rs:792-812 | a first text beyond 1 MiB leaves nothing on display, not even of an earlier attempt |
| `TurnShows.ConfirmedIff` | core/agent/src/model_stream.rs:836-844 | a text is confirmed exactly when the attempt holds and the text is on display as final |
| `CacheControl.RemoveFirstLowers` | core/agent/src/model_api.rs:1184-1195 | a removal finds something exactly when there is a mark, and lowers the count, by one when no marks are nested |
| `CacheControl.RemovesFromFirst` | core/agent/src/model_api.rs:1184-1195 | in an array the removal touches the first element with a mark and leaves the others in place |
| `CacheControl.RemovesFromFirstField` | core/agent/src/model_api.rs:1184-1195 | an object loses its own mark first, otherwise the first field with a mark loses one |
| `CacheMarks.StripIs` | core/agent/src/model_api.rs:1184-1195 | taking the marks away leaves none, and leaves a value without marks alone |
| `CacheMarks.FieldIff` | core/agent/src/model_api.rs:1197-1220 | looking a field of the body up finds exactly the value under its key |
| `CacheControl.RemoveFromFieldEffect` | core/agent/src/model_api.rs:1197-1220 | one round on one field of the body: its effect on that field, on the count, and on every other field |
| `Exchanges.NothingLost` | core/agent/src/model_api.rs:713-779 | moving the trailers loses and invents no block |
| `PlanParts.TrailersAre` | core/agent/src/model_api.rs:717-728 | the trailers are, in order, exactly the blocks whose text without the whitespace around it is that of the trailer |
| `PlanParts.TrailerIff` | core/agent/src/model_api.rs:725-728 | a block is a trailer exactly when its text is that of the trailer with nothing but whitespace around it |
| `PlanParts.OthersAre` | core/agent/src/model_api.rs:717-728 | and the other blocks exactly the others, in order |
| `PlanParts.UserBlocksAre` | core/agent/src/model_api.rs:742-779 | the Responses and Anthropic lists hold exactly the blocks of the user, in order |
| `PlanParts.ForDeltaIs` | core/agent/src/model_api.rs:675-684 | the exchanges of a delta are exactly those with its id, in order |
| `AnthropicContents.BlankIff` | core/agent/src/model_api.rs:781-793 | an assistant text is left out exactly when it holds nothing but whitespace |
| `Audit.Keep` | core/agent/src/audit.rs:526-549 | the plain filter drops records only; with nothing dropped the segment is unchanged |
| `Audit.TimesBounded` | core/agent/src/audit.rs:445-446 | the summary's times bound the time of every record |
| `AuditAppends.AppendKeepsRecords` | core/agent/src/audit.rs:693-709 | an append loses whole oldest segments only and puts its record behind all others |
| `QueueAnswers.EnqueueAnswers` | bridges/http_websocket/src/lib.rs:338-367 | a duplicate is told its number in the queue, a full queue its capacity, an accepted command the number under which it is queued, all with the revision behind the call |
| `QueueAnswers.PopAnswers` | bridges/http_websocket/src/lib.rs:369-376 | the oldest intent is handed out, or nothing from an empty queue |
| `QueueAnswers.RemoveAnswers` | bridges/http_websocket/src/lib.rs:378-394 | the intent under the id is handed out, or that there is none |
| `KvcAccounts.StoredCreatesNothing` | scripts/kvc_replay.py:338-367 | and one whose marks are all stored creates nothing |
| `KvcAccounts.StableAre` | scripts/kvc_replay.py:277-283 | the stable segments are the model responses that do not belong to the delta of the last segment, in order |
| `KvcAccounts.BlocksAre` | scripts/kvc_replay.py:270-276 | the blocks of a request are the static prompt and then, in order, the segments with text |
| `KvcAccounts.OneBlockText` | scripts/kvc_replay.py:228-230 | a block adds its role in angle brackets on a line of its own and then its text |
| `KvcReplay.NewestIsBlock` | scripts/kvc_replay.py:200-221 | when no segment is empty, as splitting a prompt guarantees, the newest checkpoint is a block of the request |
| `RoleProblems.IdIff` | applications/timem/src/worker_roles.rs:110-118 | an id is acceptable exactly when it has 1 to 160 characters, each an ASCII letter, a digit, `_` or `-` |
| `SummaryArguments.SummaryArgumentParser.Push` | core/agent/src/model_stream.rs:631-731 | pushing a text runs the per-character machine over all of it; stays well formed |
| `FinishSummary.NativeFinishSummaryStream.PushEvent` | core/agent/src/model_stream.rs:521-596 | an event feeds its fragments in order, in all three event shapes |
| `FinishSummary.Accumulate` | core/agent/src/model_api.rs:1852-1881 | the accumulation loop over indexed fragments, with its limit error |
| `XmlStream.XmlPublicTextStream.Push` | core/agent/src/model_stream.rs:388-408 | one push: byte limit, failure latch, and draining of all that can be decided |
| `JsonStream.JsonPublicTextStream.Push` | core/agent/src/model_stream.rs:130-223 | one push: byte limit, failure latch, and the lexer run over the text up to its first error |
| `CompactJson.CompactText` | core/agent/src/capability.rs:1281-1307 | the character loop keeps string contents and drops exactly the Unicode whitespace outside strings; other control characters stay |
| `SseStream.OpenAiContentStream.PushEvents` | core/agent/src/model_stream.rs:32-72 | one push reads bytes until the stream stops; at most one error, which clears what is held |
| `Preview.ResponsePreviewState.Begin` | core/agent/src/model_stream.rs:253-260 | a new attempt starts and accepts text; what is visible stays until replaced |
| `Preview.ResponsePreviewState.ReplaceCurrent` | core/agent/src/model_stream.rs:261-275 | the streaming text of the current attempt is hidden and no other |
| `Preview.ResponsePreviewState.ReplacePrior` | core/agent/src/model_stream.rs:276-288 | the text of an earlier attempt is hidden and no other |
| `Preview.ResponsePreviewState.Append` | core/agent/src/model_stream.rs:293-323 | text joins the visible text of its attempt; beyond 1 MiB the preview is retracted with an error |
| `Preview.ResponsePreviewState.Settle` | core/agent/src/model_stream.rs:324-341 | only the accepting current attempt that shows text settles, once |
| `Preview.ResponsePreviewState.Retract` | core/agent/src/model_stream.rs:342-354 | only the current attempt can be retracted |
| `Preview.ResponsePreviewState.Cancel` | core/agent/src/model_stream.rs:355-360 | cancelling hides what is visible and accepts nothing more |
| `TurnPreview.TurnResponsePreview.Begin` | core/agent/src/model_stream.rs:786-791 | a new attempt of the turn |
| `TurnPreview.TurnResponsePreview.Append` | core/agent/src/model_stream.rs:792-812 | text to either target, with the first summary text replacing the progress note; what the call returns |
| `TurnPreview.TurnResponsePreview.Validated` | core/agent/src/model_stream.rs:813-830 | rejection retracts; acceptance settles unless an optimistic finish is pending |
| `TurnPreview.TurnResponsePreview.ResolveFinish` | core/agent/src/model_stream.rs:845-852 | a pending finish settles as final or intermediate; what the call returns |
| `TurnPreview.TurnResponsePreview.ConfirmedFinal` | core/agent/src/model_stream.rs:836-844 | true exactly when the visible final text is the given one |
| `TurnPreview.TurnResponsePreview.Interrupt` | core/agent/src/model_stream.rs:853-856 | an interrupted attempt takes nothing more |
| `TurnPreview.TurnResponsePreview.Retract` | core/agent/src/model_stream.rs:857-861 | a retracted attempt is hidden and takes nothing more |
| `ChatExchanges.AppendChat` | core/agent/src/model_api.rs:713-740 | the in-place loop builds the Chat rendering of the plan |
| `ChatExchanges.Extend` | core/agent/src/model_api.rs:732-736 | the exchanges of one delta, filtered in order, each as assistant and tool messages |
| `ResponsesExchanges.AppendResponses` | core/agent/src/model_api.rs:752-779 | the loop builds the Responses rendering of the plan over user blocks |
| `AnthropicExchanges.AppendAnthropic` | core/agent/src/model_api.rs:795-830 | the loop with its pending texts builds the Anthropic messages |
| `AnthropicExchanges.Place` | core/agent/src/model_api.rs:813-824 | a block joins the pending texts; one with a delta id flushes them and brings its exchanges |
| `Audit.Summarize` | core/agent/src/audit.rs:429-457 | the scan loop returns byte count, record count and both time bounds, or nothing for an empty or untimed segment |
| `Audit.PruneSegment` | core/agent/src/audit.rs:526-549 | the loop keeps exactly the retained records in order and counts the others |
| `Audit.AuditLog.AppendRecord` | core/agent/src/audit.rs:693-709 | an append, complete or stopped before its summary is written |
| `Audit.AuditLog.PruneLog` | core/agent/src/audit.rs:568-592 | the loop over all segments and its count |
| `ProjectionCache.TurnProjectionCache.Apply` | bridges/http_websocket/src/lib.rs:56-72 | a delivery is applied, a duplicate or stale, with the revision it reports |
| `ProjectionCache.TurnProjectionCache.ApplyAll` | bridges/http_websocket/src/lib.rs:56-93 | deliveries one after the other |
| `IntentQueue.NextTurnIntentQueue.Enqueue` | bridges/http_websocket/src/lib.rs:338-367 | duplicate, full or queued at the end with the next number |
| `IntentQueue.NextTurnIntentQueue.PopFront` | bridges/http_websocket/src/lib.rs:369-376 | the oldest intent leaves |
| `IntentQueue.NextTurnIntentQueue.Remove` | bridges/http_websocket/src/lib.rs:378-394 | the intent with that command id leaves, the others keep their order |
| `KvcReplay.PlanPrefixes` | scripts/kvc_replay.py:224-233 | every prefix key is the text up to its block, its count is its length |
| `KvcReplay.ReplayCacheMarks` | scripts/kvc_replay.py:338-367 | the loop over marks and lookback probes: what is read, created and stored |
| `KvcReplay.Probe` | scripts/kvc_replay.py:351-357 | looking back at most twenty blocks for the nearest stored prefix |
| `KvcReplay.PlanCheckpoint` | scripts/kvc_replay.py:270-297 | the plan's prefixes and marks |
| `EndpointAccounts.SessionDebug.RecordPrompt` | applications/timem/src/debug_session.rs:473-486 | a request is counted at the worker's endpoint; one still in flight fails at its own |
| `EndpointAccounts.SessionDebug.RecordLatency` | applications/timem/src/debug_session.rs:597-613 | a success is credited where the request was counted; at most 2,000 samples |
| `EndpointAccounts.SessionDebug.RecordFailure` | applications/timem/src/debug_session.rs:615-626 | a failure is credited where the request was counted |
| `EndpointAccounts.SessionDebug.RecordProfile` | applications/timem/src/debug_session.rs:641-654 | a worker moves to an endpoint; no count changes |
| `EndpointAccounts.SessionDebug.Reset` | applications/timem/src/debug_session.rs:388-402 | all accounts of a session start anew |
| `EndpointAccounts.SessionDebug.Load` | applications/timem/src/debug_session.rs:250-311 | persisted counts are taken up; nothing is in flight |
| `RoleLibrary.Validate` | applications/timem/src/worker_roles.rs:126-168 | the validation loops return the first problem of the library |
| `RoleRecovery.RecoverLibrary` | applications/timem/src/worker_roles.rs:171-213 | the repair loops |
| `RoleRecovery.RecoverRolesLoop` | applications/timem/src/worker_roles.rs:182-195 | roles kept, and the ids seen, in one pass |
| `RoleRecovery.RecoverGroupsLoop` | applications/timem/src/worker_roles.rs:197-211 | groups kept, each with the known role ids not placed before |
| `ProcessTree.Pass` | scripts/runtime_io_guard.py:123-127 | one pass: grows the list, or changes nothing only when nothing is left to add |

## Left out

- UTF-8 decoding and JSON parsing of SSE events: parameters of `SseStream`; so are the parsing of delta ids and of raw
  tool arguments in `Exchanges`, and `to_lowercase` in `RoleLibrary`.
- The reading of events and request bodies from JSON: events, blocks and calls are values, a role file is `Some` library or
  `None`, and a JSON number or literal in `JsonDocuments` is any text without structural characters.
- Counters that saturate at their largest machine value: they are unbounded here.
- Files, atomic renames, locks, clocks, HTTP and WebSocket. An audit segment is a sequence of records; how the rolling store
  rolls and evicts segments is a free choice of every append. The store does not reuse the name of a segment
  while its manifest can be read, so the summary left behind by a stop between removing a file and its summary is not read
  again. Half-written records and the migration of
  single-file logs are not modelled.
- Planning the prompt cache and splitting a prompt into blocks or segments: blocks and segments are given.
- Images, tool schemas, structured output, reasoning metadata of Chat continuations, and the bodies of turn projections:
  data that the modelled code only carries along.
- `is_error` of a tool result in the timeline: the other two providers do not send it. `AnthropicContents.AnthropicHolds`
  speaks of it for Anthropic messages.
- The single user message of an Anthropic request: `AnthropicExchanges` takes its blocks, so the early return for a request
  without messages is not modelled.
- Histograms, HTML pages, dumps, token counts and repair counts of the debug statistics; sessions are kept apart by id and
  share nothing.
- The other strategies of the replay script (static, legacy, tail, typed tail): `KvcReplay.ReadIsShared` and
  `KvcReplay.ReadPlusCreatedFits` hold for any marks, so for theirs too.
- Reading the process table: the parent map and the order of its entries are given.
- Catalog admission, capability manifests, session groups, configuration editing and routes: lists of independent checks.
- XmlChunks.FreshChunksAgree: beyond 1 MiB it states only the failure, because a single push then rejects the text before reading it while earlier chunks have been read.
- JsonStream.ChunksAgree: states nothing about texts with an undecodable string; JsonBadStrings.AllAgreeIff does, for a whole text.
- JsonBadStrings.AllAgreeIff: speaks of texts of at most 1 MiB, because a longer single push is rejected before it is read.
- KvcReplay.CheckpointsOverlap: is a sufficient condition on the prompts alone; KvcReplay.AlwaysOverlapsIff has the exact one, on the marks of the later plan.
- KvcReplay.AlwaysOverlapsIff: is about plans with a checkpoint and takes the newest one to be a block, which KvcReplay.NewestIsBlock shows for segments with text.
- RoleKeeping.GroupsKept: says which groups are kept and in which order; RoleRecovery.PlacedOnce and RoleRecovery.RecoverGroupsLoop say which role ids they keep.
- ResponsesExchanges.ResponsesTimeline: takes the raw arguments of every call to read as its parsed input, as for Chat.
