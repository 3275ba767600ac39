# Verified cores of the agent runtime and its statistics

A Dafny model of the protocol and planner cores of the repository, with proofs
about whole runs.  `dafny verify dfyconfig.toml` checks everything.

| modules | what they model |
|---|---|
| `SeatStreams`, `SeatFiles` | serialized seat streams: one pending stream per refresh family, write-once marks, handoff chain, fencing |
| `RunnerReader`, `RunnerEvents`, `RunnerProtocol`, `ClaudeRun` | the CLI runner: line splitter, frame parser and what its frames tell, exit agreement, queue and consumer |
| `SseReader`, `DetachKeys`, `Reconnect` | the attach client: event-stream buffer, detach keys, pacing and giving up |
| `ProjectGraph`, `GraphLaws`, `GraphTheorems`, `GraphLinks`, `GraphEdges`, `GraphNodes`, `GraphCommits`, `GraphSpans`, `GraphIdentity`, `GraphBuilder` | the project graph: definition of each pass, what the passes keep, edges, nodes, dates and spans in terms of the input, the builder as it runs |
| `JobScheduler`, `InteractiveThrottle` | the job queue under the adaptive cap, throttle bookkeeping, nudging of interactive sessions |
| `Correlate`, `CorrelateLaws`, `Conflicts`, `Stats`, `Report` | evidence-ranked attribution, its conflicts, and the two independent aggregations |
| `DecisionKeys`, `FocusDeck`, `FocusStore` | decision keys, the ordered deck and its store |
| `WorkerPool`, `FanoutPlan` | the bounded-concurrency pool and the names of a fan-out |
| `LineageLease` | leases with a fencing epoch |
| `InboxBridge`, `HookSettings`, `MaskedInput` | inbox synchronisation, hook merging, masked input |
| `Utf8` | UTF-8 with replacement characters, decoding whole and in pieces |
| `Common`, `Sorting`, `TextSplit` | shared definitions |

The shape is the same throughout.  Functions define what one step or one pass
means; classes and methods with the source's variables and loops are proved to
compute these functions; lemmas state what holds of them over all inputs, runs
or interleavings.

## How the source is read

- A protocol call is one atomic step.  Clocks, random identifiers, file and
  process probes, JSON parsing and regular expressions are parameters or inputs.
  Times are integer milliseconds; a timestamp that the source parses is given
  as its value, or as missing when it does not parse.
- `localeCompare` and the default string sort are comparison by code point.
- Lower-casing acts on ASCII letters, which is all that commit names, thread
  identifiers and node ids rely on.
- A seat family is identified by its runtime directory together with its
  reference: two runtime directories can each hold a pending stream of one family.
  Directories are given in one spelling each; path normalisation is not modelled.
- Bytes become text as in section 8.1.1 of the Encoding Standard: a replacement
  character for each part of a character that could not be completed.
- An asynchronous function is cut at its awaits; between them it is one step.

## Where code and documentation differ

The model follows the code.

- `packages/agent-stats/src/project-graph.ts:43-48` says that the first alias
  whose prefix matches wins.  The code takes the longest matching prefix
  (`GraphIdentity.AliasIsLongestMatch`).
- Commit dates are indexed by 7-character prefix; the date of another commit is
  used exactly when an earlier dated line of the same prefix differs
  (`GraphCommits.OwnDateIff`, with an instance in
  `GraphCommits.SharedPrefixTakesFirstDate`).
- Agent spans are derived from the compatibility-only hub edges; with these off
  no agent has a span (`GraphLinks.NoHubEdgesNoAgentSpans`).
- The refusal "already materialized or fenced" notwithstanding, a fenced stream
  can be materialized once (`SeatStreams.FencedStreamCanBeMaterialized`), and a
  family also stops for good when its generations are exhausted
  (`SeatStreams.NeverAdmittedAgainIff`).
- `apps/control-plane/src/lineage-lease.ts:229-234` promises that the old epoch is
  rejected on any future call.  `releaseLease` deletes the record and epochs start
  again at 0: the fence holds exactly as long as no deletion comes between
  (`LineageLease.FenceHoldsIff`), and from every record there is a way around it
  (`LineageLease.NoFenceIsFinal`).
- Jobs are not always started under the cap: a requested conductor is enrolled and
  launched without a claim, and a delegation that finds the registry unwritable is
  launched from memory.  A run overshoots exactly by such a start while every slot
  is taken (`JobScheduler.StepOvershootsIff`, `JobScheduler.SlotsStayWithinCapIff`,
  `JobScheduler.LaunchOvershoots`).
- The prefix index of `correlate` keeps the last commit of a prefix, the scan
  takes the first; they agree exactly when these are one commit
  (`Correlate.IndexAgreesIff`, `Correlate.AmbiguousPrefixDiffers`).
- The table keys commits by exact case, the report ignores case; they agree exactly
  when no two names differ in case only (`Report.CommitsAgreeIff`,
  `Report.CaseClashDisagrees`).
- A non-list value of a hook event is overwritten (`HookSettings.OtherValuesAreReplaced`).
- Attached input and runner output are decoded chunk by chunk, so a chunk boundary
  inside a character garbles it; the text is intact exactly when there is none
  (`DetachKeys.TextIsIntactIff`, `DetachKeys.CutLetterIsGarbled`,
  `RunnerReader.ChunkingIsInvisible`, `RunnerReader.CutCharacterShows`).  The event
  stream uses one streaming decoder and has no such boundary, except that the
  decoder outlives a lost stream (`SseReader.ReopenedReadsAfreshIff`).
- Runner output beyond the total byte limit shows how it was cut
  (`RunnerReader.BeyondTheLimit`).
- What masked input decides depends on its chunk boundaries: a newline, a Ctrl-D or
  an oversize content decides at the end of its chunk, a Ctrl-C cancels its whole
  chunk (`MaskedInput.ChunkingIsInvisibleIff`, `MaskedInput.SingleLineChunkingIff`,
  `MaskedInput.ChunksDecideAlikeIff`,
  with instances in `MaskedInput.NewlineAtBoundary` and `MaskedInput.ErasedExcess`).

## Model

| member | source | states |
|---|---|---|
| SeatStreams.OneStreamAtATime | packages/h2a-runtime/src/cli-seat-materialization.ts:558-586 | Two streams are admitted for one family only if the first was cleared in between, over every run of calls by any callers |
| SeatStreams.PendingUntilCleared | packages/h2a-runtime/src/cli-seat-materialization.ts:558-586 | An admitted ticket stays the pending one until a clearance of that very ticket succeeds |
| SeatStreams.PendingWasBegun | packages/h2a-runtime/src/cli-seat-materialization.ts:565-586 | A pending ticket lies in its own family and carries the identifier of an earlier begin |
| SeatStreams.AtMostOneMaterialization | packages/h2a-runtime/src/cli-seat-materialization.ts:312-315 | Whoever holds a copy of a ticket, it serves at most one renewable materialization in a run |
| SeatStreams.MarkedIff | packages/h2a-runtime/src/cli-seat-materialization.ts:284-315 | The exclusive mark is written exactly when delegation is granted, nothing refuses before it, the ticket is the pending one of the same family and predecessor, and it is not marked yet; then only the mark changes, and otherwise nothing does and the call is refused |
| SeatStreams.AdmittedIff | packages/h2a-runtime/src/cli-seat-materialization.ts:558-586 | At every point of every run, what a begin asks for is granted exactly under the listed guards on the persisted family; an admitted ticket then pends as it was begun, from the handoff or the predecessor presented, and a refused begin changes nothing |
| SeatStreams.CapturedIff | packages/h2a-runtime/src/cli-seat-materialization.ts:592-610 | A result is captured exactly once, for the pending ticket: fenced when side effects are ambiguous, sealed with the next generation when the material changed, otherwise unchanged |
| SeatStreams.ClearedIff | packages/h2a-runtime/src/cli-seat-materialization.ts:613-636 | A clearance succeeds exactly for the pending ticket, a capture that is not fenced, a finished cleanup, and a live state of the same family, stream and predecessor, with a sealed successor stored and live; it then publishes the successor or keeps the predecessor, and otherwise nothing changes |
| SeatStreams.OtherFamiliesStay | packages/h2a-runtime/src/cli-seat-materialization.ts:546-636 | No call changes a family that it does not name |
| SeatStreams.FencedStreamCanBeMaterialized | packages/h2a-runtime/src/cli-seat-materialization.ts:312-315 | A stream captured as fenced can still be materialized once: the capture plays no part in the gate |
| SeatStreams.ChainInvariant | packages/h2a-runtime/src/cli-seat-materialization.ts:571-577 | The handoff or pending predecessor of a family is its first predecessor advanced by one generation per cleared change, in one epoch |
| SeatStreams.AdmittedContinuesHandoff | packages/h2a-runtime/src/cli-seat-materialization.ts:571-586 | An admitted stream starts exactly from the persisted handoff, in the first epoch, at the first generation plus the number of cleared changes |
| SeatStreams.FencedForever | packages/h2a-runtime/src/cli-seat-materialization.ts:592-636 | After a fenced capture, in every continuation the ticket, capture and handoff stay, no begin of the family is admitted and no clearance clears |
| SeatStreams.LostForever | packages/h2a-runtime/src/cli-seat-materialization.ts:558-586 | A family that is fenced or has exhausted its generations never admits again |
| SeatStreams.WayOnLeadsToAdmission | packages/h2a-runtime/src/cli-seat-materialization.ts:558-636 | From every other reachable state a finite series of calls, given explicitly, ends in an admission |
| SeatStreams.NeverAdmittedAgainIff | packages/h2a-runtime/src/cli-seat-materialization.ts:558-636 | A family never admits a stream again if and only if it is fenced or its generations are exhausted |
| SeatFiles.SeatRuntime.WriteExclusive | packages/h2a-runtime/src/cli-seat-codecs.ts:240-256 | Exclusive create: writes when the file is absent, otherwise refuses and leaves everything as it was |
| SeatFiles.SeatRuntime.IsPending | packages/h2a-runtime/src/cli-seat-materialization.ts:550-556 | True exactly when the stored ticket of the lock directory is the presented one |
| SeatFiles.SeatRuntime.BeginStream | packages/h2a-runtime/src/cli-seat-materialization.ts:558-586 | The file operations of a begin have the effect and reply of the protocol step, other families untouched |
| SeatFiles.SeatRuntime.MaterializeRenewable | packages/h2a-runtime/src/cli-seat-materialization.ts:284-315 | The renewable gate and its mark file have the effect and reply of the protocol step, other families untouched |
| SeatFiles.SeatRuntime.CaptureStream | packages/h2a-runtime/src/cli-seat-materialization.ts:592-610 | Write-once capture file, other families untouched |
| SeatFiles.SeatRuntime.PublishHandoff | packages/h2a-runtime/src/cli-seat-materialization.ts:630-634 | Writing, renaming and removing leave exactly the new handoff and no pending stream |
| SeatFiles.SeatRuntime.ClearStream | packages/h2a-runtime/src/cli-seat-materialization.ts:613-636 | The file operations of a clearance have the effect and reply of the protocol step, which `SeatStreams.ClearedIff` pins down; other families untouched |
| RunnerReader.FeedIsWhole | packages/h2a-runtime/src/claude-code-cli-runner.ts:608-630 | For any chunks of bytes, reading chunk by chunk agrees with reading the texts of all chunks together: same rest and byte count, and the same parser and events, or, past an oversized line, the same visible events |
| RunnerReader.ChunkingIsInvisible | packages/h2a-runtime/src/claude-code-cli-runner.ts:608-640 | The text read is that of the bytes sent iff no chunk boundary splits a character; such chunks, within the total byte limit, show what the uncut output shows up to the first terminal event |
| RunnerReader.CutCharacterShows | packages/h2a-runtime/src/claude-code-cli-runner.ts:617 | A character cut by a chunk boundary can turn a good stream into a failed one |
| RunnerReader.BeyondTheLimit | packages/h2a-runtime/src/claude-code-cli-runner.ts:609-615 | Beyond the total limit what shows are the events of the chunks before the crossing one, read as one text, and then the error |
| RunnerReader.LinesAreFrames | packages/h2a-runtime/src/claude-code-cli-runner.ts:621-629 | Without an oversized line, line by line reading is frame by frame reading of the non-blank lines |
| RunnerReader.ParserMeaning | packages/h2a-runtime/src/claude-code-cli-runner.ts:457-606 | The parser is clean exactly on accepted frames and holds a result exactly after accepted frames ended by one success result |
| RunnerEvents.AcceptedFramesTell | packages/h2a-runtime/src/claude-code-cli-runner.ts:457-545 | Frames are accepted iff each, in its place, tells something or nothing, and the events pushed are exactly what they tell, in frame and block order: the text of each non-empty text block or part, each tool block with its own id, name and input, and at a stop the start that opened the block with the parsed parts since |
| RunnerReader.PendingResultIff | packages/h2a-runtime/src/claude-code-cli-runner.ts:547-640 | After the last line a result is pending on a clean parser iff the text is complete; it has pushed what its frames push and reports tool use truthfully |
| RunnerProtocol.ChildHolds | packages/h2a-runtime/src/claude-code-cli-runner.ts:608-667 | Over every interleaving the pushed history is what the output, error and close events so far determine |
| RunnerProtocol.ConsumerHolds | packages/h2a-runtime/src/claude-code-cli-runner.ts:669-700 | Over every interleaving yielded and queued items together are the pushed history, cut at the first terminal event |
| RunnerProtocol.ExactlyOneTerminal | packages/h2a-runtime/src/claude-code-cli-runner.ts:669-700 | A consumer not closed early yields no terminal event before its last, and exactly one once it has returned |
| RunnerProtocol.ResultOnlyIfAgreed | packages/h2a-runtime/src/claude-code-cli-runner.ts:637-667 | A yielded result means a clean exit, an intact credential, a clean sandbox and complete output; it comes last, after exactly the events that the frames of the output tell by position, with the right finish reason |
| RunnerProtocol.ResultIff | packages/h2a-runtime/src/claude-code-cli-runner.ts:637-667 | Without abort, early close or child error the returned run ends in a result iff exit, credential, cleanup and output are in order |
| RunnerProtocol.EveryClosedRunEnds | packages/h2a-runtime/src/claude-code-cli-runner.ts:669-700 | Once the child has closed, a bounded number of consumer turns ends the run |
| RunnerProtocol.ChildErrorPreventsResult | packages/h2a-runtime/src/claude-code-cli-runner.ts:632-667 | Once the child has reported an error before its close is complete, no continuation yields a result, however well the run exits |
| RunnerProtocol.EveryAbortedRunEnds | packages/h2a-runtime/src/claude-code-cli-runner.ts:419-427 | An aborted run ends within a bounded number of consumer turns even if the child never closes |
| ClaudeRun.Session.ParseAssistantMessage | packages/h2a-runtime/src/claude-code-cli-runner.ts:462-486 | The loop over content blocks pushes and sets what the block fold says, whose events `RunnerEvents.AcceptedFramesTell` pins down |
| ClaudeRun.Session.ParseStreamEvent | packages/h2a-runtime/src/claude-code-cli-runner.ts:488-545 | Partial tool inputs are gathered per index and parsed at their stop |
| ClaudeRun.Session.ParseResult | packages/h2a-runtime/src/claude-code-cli-runner.ts:547-568 | A first success result is staged; a second result, a failure or bad usage fails the stream |
| ClaudeRun.Session.ParseLine | packages/h2a-runtime/src/claude-code-cli-runner.ts:570-606 | One line is skipped, refused or dispatched as the frame step says |
| ClaudeRun.Session.ParseLines | packages/h2a-runtime/src/claude-code-cli-runner.ts:621-629 | The line loop, up to an oversized line |
| ClaudeRun.Session.OnStdout | packages/h2a-runtime/src/claude-code-cli-runner.ts:608-630 | The stdout handler is the data step of the protocol |
| ClaudeRun.Session.OnCloseBegins | packages/h2a-runtime/src/claude-code-cli-runner.ts:637-651 | The close handler up to its await is the first close step |
| ClaudeRun.Session.OnCloseEnds | packages/h2a-runtime/src/claude-code-cli-runner.ts:652-667 | The close handler after its await is the second close step |
| ClaudeRun.Session.Turn | packages/h2a-runtime/src/claude-code-cli-runner.ts:669-700 | One turn of the consumer loop is the consume step |
| SseReader.ReadFrame | packages/h2a-runtime/src/attach.ts:83-97 | One frame gives one event, or none without data lines |
| SseReader.EventOfFrame | packages/h2a-runtime/src/attach.ts:83-97 | A frame has an event iff it is not blank and has a data line; it is named by the last `event:` line, and the lines of its data are the trimmed texts of the `data:` lines, in order |
| SseReader.ParseSseEvents | packages/h2a-runtime/src/attach.ts:76-99 | Parsing yields the events of all complete frames and keeps the rest |
| SseReader.ReadStream | packages/h2a-runtime/src/attach.ts:350-362 | The loop over byte chunks, one streaming decoder and the buffer delivers what the incremental fold delivers |
| SseReader.DeliverIsWholeText | packages/h2a-runtime/src/attach.ts:358-362 | Chunk by chunk delivery equals splitting the decoded text of all bytes at once, even where a chunk ends inside a character |
| SseReader.ChunkingIsInvisible | packages/h2a-runtime/src/attach.ts:358-362 | Any two cuts of the same bytes deliver the same events and rest |
| SseReader.WholeTextIsRead | packages/h2a-runtime/src/attach.ts:134 | A fresh decoder gives back the encoded text but for a leading byte order mark |
| SseReader.ReopenedReadsAfreshIff | packages/h2a-runtime/src/attach.ts:463 | The stream reopened after a loss reads as from a fresh decoder iff the one before did not break off inside a character; else a replacement character comes first |
| DetachKeys.NothingLost | packages/h2a-runtime/src/attach.ts:240-285 | Before a detach, bytes passed on plus the held Ctrl-P equal the bytes typed, in order, for every chunking and timer firing; a detach has happened iff a Ctrl-Q followed an odd run of Ctrl-P |
| DetachKeys.DetachSendsThePrefix | packages/h2a-runtime/src/attach.ts:251-262 | At the first such Ctrl-Q exactly the bytes before the pair have been passed on, and nothing later ever is |
| DetachKeys.TextIsIntactIff | packages/h2a-runtime/src/attach.ts:243-247 | The text that arrives, each piece decoded on its own, is the decoding of the bytes passed on iff no chunk before the detach begins inside a character |
| DetachKeys.CarriesOverInText | packages/h2a-runtime/src/attach.ts:243-247 | For well-formed typed text that is: iff no chunk begins with a continuation byte |
| DetachKeys.ChunkingIsInvisibleIff | packages/h2a-runtime/src/attach.ts:240-285 | Without timer firings detach, held key and bytes do not depend on the chunks; the text arriving equals that of one chunk iff no chunk before the detach begins inside a character |
| DetachKeys.CutLetterIsGarbled | packages/h2a-runtime/src/attach.ts:243-247 | The two bytes of a letter in two chunks arrive as two replacement characters, in one chunk as the letter |
| DetachKeys.Attachment.OnStdin | packages/h2a-runtime/src/attach.ts:240-285 | The byte loop with its passthrough buffer has the effect of pressing the keys one by one and ending the chunk; every piece is queued as its own decoded text; the timer runs iff a Ctrl-P is held |
| DetachKeys.Attachment.OnTimer | packages/h2a-runtime/src/attach.ts:274-279 | The timer passes the held Ctrl-P on |
| DetachKeys.Attachment.Close | packages/h2a-runtime/src/attach.ts:303-315 | Closing stops the timer; afterwards nothing is sent |
| Reconnect.CountersAreStreaks | packages/h2a-runtime/src/attach.ts:425-459 | The two counters are the lengths of the current runs of short streams and of short empty streams |
| Reconnect.GivesUpIff | packages/h2a-runtime/src/attach.ts:436-448 | The client gives up after a stream iff that one and the maxShortCycles before it were all short and empty |
| Reconnect.ShortCyclesArePaced | packages/h2a-runtime/src/attach.ts:426-453 | After n short streams in a row it gives up or waits at least the n-th backoff, whether or not they showed output |
| Reconnect.VerdictsAreStreaks | packages/h2a-runtime/src/attach.ts:425-459 | Every verdict from the whole run: reopen after a stream that lived, give up after a full streak of empty ones, else wait for the step that the current run of short streams has reached, at most the maximum |
| Reconnect.Pace | packages/h2a-runtime/src/attach.ts:425-459 | The loop over ended streams gives each its verdict and stops at the first give-up |
| Reconnect.ReopenStream | packages/h2a-runtime/src/attach.ts:464-501 | The first attempt that opens, or finds the session gone, decides; otherwise the stream is lost after maxAttempts |
| GraphBuilder.BuildProjectGraph | packages/agent-stats/src/project-graph.ts:378-895 | The imperative builder computes exactly the graph that the pass-by-pass definition describes |
| GraphBuilder.IndexLog | packages/agent-stats/src/project-graph.ts:389-396 | Dates and records by 7-character prefix, first dated and first listed line win |
| GraphBuilder.EnvelopeOf | packages/agent-stats/src/project-graph.ts:358-368 | The running bests compute the envelope of the known bounds |
| GraphBuilder.FindAlias | packages/agent-stats/src/project-graph.ts:213-233 | The two nested loops compute the best alias |
| GraphBuilder.FindSessionAlias | packages/agent-stats/src/project-graph.ts:235-241 | The alias of the first working directory that has one |
| GraphBuilder.Builder.InsertNode | packages/agent-stats/src/project-graph.ts:402-405 | First write wins |
| GraphBuilder.Builder.InsertEdge | packages/agent-stats/src/project-graph.ts:406-414 | First touch of a (source, target, relation) wins; the set of keys and the list of edges agree |
| GraphBuilder.Builder.InsertRepos | packages/agent-stats/src/project-graph.ts:429-470 | Repos and the rename chain |
| GraphIdentity.SessionsKnow | packages/agent-stats/src/project-graph.ts:531-556 | After any sessions the maps know exactly the agents with an in-identity session, and exactly those that share their node with another such agent are ambiguous |
| GraphBuilder.Builder.InsertSession | packages/agent-stats/src/project-graph.ts:482-634 | One session with its nodes, edges and maps; a session outside the identity changes nothing |
| GraphBuilder.Builder.InsertEvidence | packages/agent-stats/src/project-graph.ts:641-677 | Evidence nodes and edges for listed, unambiguous agents |
| GraphBuilder.Builder.InsertLogCommit | packages/agent-stats/src/project-graph.ts:684-741 | Enrichment in place, then the commit and an edge to each parent, in the direction that `GraphEdges.EdgesIff` pins down |
| GraphBuilder.Builder.InsertHeads | packages/agent-stats/src/project-graph.ts:743-782 | Branch heads |
| GraphBuilder.Builder.InsertDerived | packages/agent-stats/src/project-graph.ts:784-802 | Parentage edges |
| GraphBuilder.Builder.IndexLinks | packages/agent-stats/src/project-graph.ts:820-832 | The three neighbour maps list, for every key, its neighbours in edge order |
| GraphBuilder.Builder.DeriveSpans | packages/agent-stats/src/project-graph.ts:833-864 | Spans of branches, agents and the project, node by node in insertion order |
| GraphBuilder.Builder.StampTrust | packages/agent-stats/src/project-graph.ts:866-879 | The trust tier of nodes that declare none |
| GraphIdentity.AliasIsLongestMatch | packages/agent-stats/src/project-graph.ts:213-233 | A directory has no alias iff no prefix covers it, else the earliest alias owning a longest covering prefix |
| GraphTheorems.BuildAt | packages/agent-stats/src/project-graph.ts:816-879 | Spans and trust change each node on its own, from the finished structure |
| GraphTheorems.BuiltGraphIsWellFormed | packages/agent-stats/src/project-graph.ts:402-414 | Every edge joins two existing nodes, no (source, target, relation) repeats, nodes are listed once |
| GraphIdentity.KeyTextIff | packages/agent-stats/src/project-graph.ts:410-413 | The joined text key of an edge distinguishes exactly (source, target, relation) |
| GraphIdentity.NodeIdsHaveNoBar | packages/agent-stats/src/project-graph.ts:292-295 | No node id contains the separator of the text key |
| GraphCommits.TimesIsFirstDate | packages/agent-stats/src/project-graph.ts:391-396 | The indexed date is that of the first dated log line with the prefix |
| GraphCommits.CommitNodeDate | packages/agent-stats/src/project-graph.ts:595-782 | Every commit node, printed, logged, stub or head, ends with the date of its first mention by a session or, where that is timeless, of the first of its log lines with a dated prefix |
| GraphCommits.CommitIsDatedIff | packages/agent-stats/src/project-graph.ts:595-782 | It is dated iff its first session mention has a dated prefix or one of its log lines has; stubs and heads alone stay timeless |
| GraphCommits.LogCommitIsDated | packages/agent-stats/src/project-graph.ts:595-742 | Whatever order sessions, log lines, parent stubs and heads mention it in, a log commit whose node is named with one prefix only ends as a point at the date indexed for it |
| GraphCommits.AlnumHasOneKey | packages/agent-stats/src/project-graph.ts:292-295 | A node of an alphanumeric name, as git's are, is named with one prefix only |
| GraphCommits.OwnDateIff | packages/agent-stats/src/project-graph.ts:683-716 | Such a dated log commit ends at its own date iff no earlier dated line of the same prefix has another |
| GraphCommits.SharedPrefixTakesFirstDate | packages/agent-stats/src/project-graph.ts:683-716 | Of two log commits of one prefix the second shows the date of the first |
| GraphCommits.DistinctPrefixesKeepOwnDates | packages/agent-stats/src/project-graph.ts:683-716 | With distinct prefixes t = t_end = its own committer date |
| GraphTheorems.EnvelopeIsHull | packages/agent-stats/src/project-graph.ts:358-368 | The envelope is the exact hull of the known bounds, and empty iff there is none |
| GraphSpans.BranchSpanOfItsSessions | packages/agent-stats/src/project-graph.ts:848-854 | A branch span is the exact hull of the in-identity sessions of the input that list the branch and of the dates of the commits they printed, and absent iff none is known |
| GraphTheorems.AgentInsideProject | packages/agent-stats/src/project-graph.ts:855-863 | Every agent span lies inside the project span |
| GraphSpans.ProjectSpanOfItsSessions | packages/agent-stats/src/project-graph.ts:841-863 | The project span is the exact hull of the in-identity sessions of the input |
| GraphEdges.EdgesIff | packages/agent-stats/src/project-graph.ts:416-802 | Whatever its relation, an edge is in the graph iff the input gives rise to it: alias to project and to the next alias; in-identity session to its repository, agent, branches and printed commits; log commit to each listed parent; branch to its head; child thread to parent thread, where both have a node and not the same one |
| GraphEdges.EdgesAreDated | packages/agent-stats/src/project-graph.ts:319-346 | A session edge carries the interval of the first in-identity session that gives rise to it, a derivation that of the last in-identity session of the child thread, and every other edge is timeless |
| GraphNodes.NodesAreNamed | packages/agent-stats/src/project-graph.ts:416-782 | A node is in the graph iff something in the input names it, and its kind, title, lane, sha and skeleton mark are as the first to name it says: the first in-identity session in the lane of its alias, else log or head in the latest lane |
| GraphNodes.SubjectsLand | packages/agent-stats/src/project-graph.ts:688-716 | With the log included, a commit that a log line gives a subject ends with one; if no session names it, with that of the first such line |
| GraphCommits.KnownShaIsFirstListed | packages/agent-stats/src/project-graph.ts:391-394 | A printed sha stands for the first log commit that agrees in its first seven characters, whatever their case, and for itself if there is none |
| GraphIdentity.SessionIsPlacedByFirst | packages/agent-stats/src/project-graph.ts:235-241 | A session belongs to the alias of its first working directory that has one, and to the project iff there is one |
| GraphLinks.ConductedEdgesIff | packages/agent-stats/src/project-graph.ts:561-571 | With hub edges on, conducted-by edges are exactly those of the in-identity sessions; off, there are none |
| GraphLinks.SessionInterval | packages/agent-stats/src/project-graph.ts:339-346 | A session node ends with the interval of the first in-identity session it stands for |
| GraphLinks.OwnStamp | packages/agent-stats/src/project-graph.ts:339-346 | That is the session's own start and end when no other session shares its node |
| GraphLinks.AgentSpanOfItsSessions | packages/agent-stats/src/project-graph.ts:855-860 | With hub edges on, an agent span is the exact hull of its in-identity sessions |
| GraphLinks.NoHubEdgesNoAgentSpans | packages/agent-stats/src/project-graph.ts:855-860 | With hub edges off every agent is timeless |
| GraphIdentity.EvidenceIdInjective | packages/agent-stats/src/project-graph.ts:276-279 | Evidence ids never collide |
| GraphIdentity.EvidenceEdgesIff | packages/agent-stats/src/project-graph.ts:636-677 | A record is attached iff it is listed, non-empty, names an agent of the project and no other agent shares that agent's node |
| GraphIdentity.EvidenceHasOneOwner | packages/agent-stats/src/project-graph.ts:648-677 | No record has two agents and no agent node two records |
| GraphIdentity.RegistryOrderIsForgotten | packages/agent-stats/src/project-graph.ts:641-647 | Order, repeats and empty ids of the registry records make no difference |
| GraphTheorems.TrustTier | packages/agent-stats/src/project-graph.ts:868-879 | Evidence is unverified, agents carry no tier, all others are earned |
| JobScheduler.PlanNextStarts | packages/h2a-runtime/src/delegate.ts:550-572 | Returns the ids of the admitted prefix of the queue |
| JobScheduler.HasFreeSlot | packages/h2a-runtime/src/delegate.ts:578-587 | True iff there is room under the cap |
| JobScheduler.AdmissionIsFifo | packages/h2a-runtime/src/delegate.ts:550-572 | Admitted and left jobs together are the pending ones, longest enrolled first; running and throttled jobs hold slots, and as many are admitted as slots are free, or as there are |
| JobScheduler.TiesGoInRegistryOrder | packages/h2a-runtime/src/delegate.ts:561-564 | Jobs of equal age go in registry order |
| JobScheduler.EffectiveCap | packages/h2a-runtime/src/delegate.ts:304-330 | Counts the window, halves or adds one, clamps |
| JobScheduler.TripsOnTwo | packages/h2a-runtime/src/delegate.ts:284-322 | The breaker trips iff two throttle moments lie within the last ten minutes |
| JobScheduler.TrippedPasses | packages/h2a-runtime/src/delegate.ts:320-329 | After j tripped passes from the full cap C the cap is max(1, floor(C / 2^j)) |
| JobScheduler.CleanPasses | packages/h2a-runtime/src/delegate.ts:323-329 | After k clean passes from c the cap is min(C, c + k) |
| JobScheduler.CapStaysInRange | packages/h2a-runtime/src/delegate.ts:326-329 | The cap stays between 1 and C over any passes |
| JobScheduler.ThrottleRun | packages/h2a-runtime/src/delegate.ts:362-383 | Exactly the first max hits throttle, numbered in turn and dated from the first; every later one fails the job |
| JobScheduler.BackoffGrows | packages/h2a-runtime/src/delegate.ts:259-265 | The backoff window never shrinks and never passes the cap |
| JobScheduler.BackoffDoubles | packages/h2a-runtime/src/delegate.ts:259-265 | It starts from the base and doubles until it meets the cap |
| JobScheduler.JitterStaysInWindow | packages/h2a-runtime/src/delegate.ts:243-251 | A drawn delay stays inside the window |
| JobScheduler.EveryDelayCanBeDrawn | packages/h2a-runtime/src/delegate.ts:243-251 | Every delay inside the window can be drawn |
| JobScheduler.DepthIsBounded | packages/h2a-runtime/src/delegate.ts:476-539 | Level k of nested delegation may delegate iff k is below the outermost request, clamped to one to three and one by default, whatever the levels ask for |
| JobScheduler.SlotsStayBounded | packages/h2a-runtime/src/registry.ts:1358-1442 | Over every run of passes, claims, launches and state changes, occupied slots exceed max(cap, initial) by at most the jobs started unclaimed |
| JobScheduler.SlotsStayWithinCapIff | packages/h2a-runtime/src/registry.ts:1358-1442 | A run from within the cap stays within it throughout iff no job without a slot is started unclaimed while every slot is taken |
| JobScheduler.StepOvershootsIff | packages/h2a-runtime/src/registry.ts:1358-1442 | A step goes from within the cap above it iff it starts a job without a slot unclaimed while every slot is taken |
| JobScheduler.LaunchOvershoots | packages/h2a-runtime/src/index.ts:8497-8518 | A requested conductor is enrolled and started without a claim: with one slot taken of one, two are |
| JobScheduler.EnrolmentIff | packages/h2a-runtime/src/registry.ts:1258-1383 | A queued job waits and a launched one runs; a claim sets its job running iff the running and throttled jobs, its own entry aside, leave a slot free, and changes nothing otherwise; age and throttle history of the entry are kept |
| JobScheduler.MoveIff | packages/h2a-runtime/src/registry.ts:1388-1444 | A job moves exactly along the listed transitions, or keeps its state; every other move changes nothing |
| JobScheduler.RateLimitMeans | packages/h2a-runtime/src/index.ts:7587-7633 | A rate limit throttles a running job for the drawn delay and counts from the first, and after six it fails the job |
| JobScheduler.BreakerSees | packages/h2a-runtime/src/index.ts:8168-8185 | The breaker sees the last moment of a throttled job and the first of a once throttled one |
| JobScheduler.PassStartsAdmitted | packages/h2a-runtime/src/index.ts:8271-8289 | A pass sets running, or fails, exactly the admitted jobs and touches no other |
| JobScheduler.PassFillsRoom | packages/h2a-runtime/src/index.ts:8271-8289 | When every launch succeeds a pass fills the room or empties the queue |
| JobScheduler.IdsStayUnique | packages/h2a-runtime/src/registry.ts:1258-1347 | Registry ids stay unique along every run |
| InteractiveThrottle.PlanInteractiveResume | packages/h2a-runtime/src/interactive-throttle.ts:194-319 | The two loops compute the plan |
| InteractiveThrottle.NudgesOldestFirst | packages/h2a-runtime/src/interactive-throttle.ts:268-316 | Of the sessions that may be nudged, in the order of how long they have been throttled, then of age, then of name, exactly the first min(cap, all) are nudged, with the right bookkeeping |
| InteractiveThrottle.EligibleMeans | packages/h2a-runtime/src/interactive-throttle.ts:223-312 | Every nudged session is throttled, known to be detached and to have stalled, due and under the limit; attempt, first date, next retry and signature are recorded |
| InteractiveThrottle.OneAdvisoryEach | packages/h2a-runtime/src/interactive-throttle.ts:239-315 | Every throttled session gets exactly one advisory, no other gets any |
| InteractiveThrottle.AdvisoriesFit | packages/h2a-runtime/src/interactive-throttle.ts:239-315 | Every advisory fits the session it names, guard by guard, and exactly the nudged sessions are told that they are resumed |
| InteractiveThrottle.ThrottledAreSeen | packages/h2a-runtime/src/interactive-throttle.ts:223-238 | The list of throttled sessions tells of each its signature and whether it may be attached or has stalled |
| InteractiveThrottle.OneNudgePerPass | packages/h2a-runtime/src/interactive-throttle.ts:287-316 | With unique names no session is nudged twice in a pass |
| InteractiveThrottle.PassAt | packages/h2a-runtime/src/interactive-throttle.ts:296-312 | A nudge counts one attempt and keeps the first date; without one the record stays |
| InteractiveThrottle.NudgesAreLimited | packages/h2a-runtime/src/interactive-throttle.ts:261-267 | Over every run the recorded attempts count the nudges and never pass the limit |
| InteractiveThrottle.FirstThrottleStays | packages/h2a-runtime/src/interactive-throttle.ts:302 | The date of the first throttle never changes |
| InteractiveThrottle.NeverTooEarly | packages/h2a-runtime/src/interactive-throttle.ts:239-260 | No nudge before the retry time, to an attached pane or to one not known to have stalled |
| Correlate.Correlate | packages/agent-stats/src/correlate.ts:112-272 | The nested loops produce exactly the links of the rank-by-rank definition |
| Correlate.BuildIndex | packages/agent-stats/src/correlate.ts:74-81 | Commits by exact 7-character prefix, the last one stays |
| Correlate.Scan | packages/agent-stats/src/correlate.ts:323-325 | The first commit that matches |
| Correlate.FindCommitIff | packages/agent-stats/src/correlate.ts:136-138 | Index with fallback finds a commit iff a scan does, and always a matching one |
| Correlate.IndexAgreesIff | packages/agent-stats/src/correlate.ts:74-89 | Index and scan find the same commit iff the last commit filed under the printed prefix, where it matches, is the first that matches |
| Correlate.AmbiguousPrefixDiffers | packages/agent-stats/src/correlate.ts:74-89 | With two commits of one printed prefix the index takes the last and the scan the first |
| CorrelateLaws.LinksAreClaimed | packages/agent-stats/src/correlate.ts:129-244 | Window links aside, the links are exactly those that some session claims, field by field: a printed commit with its branch at rank 1; the squash commit of the first merge of a branch it committed on, or created where nobody committed, at rank 2; its mandates at rank 3; its registered instance at rank 4 |
| CorrelateLaws.CommittersTakeTheMerge | packages/agent-stats/src/correlate.ts:167-172 | Once anybody committed on a branch, its squash commit is linked only to such sessions |
| CorrelateLaws.WorkPackagesLinkedOnce | packages/agent-stats/src/correlate.ts:184-226 | Every mandated work package is linked exactly once, by thread before instance, with the label of a mandated item, at rank 3 |
| CorrelateLaws.WeakLinkIff | packages/agent-stats/src/correlate.ts:245-268 | With distinct fact ids the window links are exactly the rank-5 links of the branches that a session saw and worked on and of which it holds no rank-1 or rank-2 commit |
| Conflicts.DetectCommitConflicts | packages/agent-stats/src/correlate.ts:289-312 | The loops compute the sorted conflicts of the ledger |
| Conflicts.ConflictIff | packages/agent-stats/src/correlate.ts:303-304 | A commit is reported iff two different agents claim it |
| Conflicts.ConflictNamesClaimants | packages/agent-stats/src/correlate.ts:289-309 | A conflict names every claiming agent once with its strongest claim, by rank and then by agent, and the branch that the first claim to name one names |
| Conflicts.ConflictsInOrder | packages/agent-stats/src/correlate.ts:312 | Conflicts come in the order of their commits, one for each |
| Stats.Aggregate | packages/agent-stats/src/stats.ts:67-163 | The accumulating loops compute the table |
| Stats.ProvedBranches | packages/agent-stats/src/stats.ts:104-113 | The branches each agent proved by a printed commit |
| Stats.RowMeans | packages/agent-stats/src/stats.ts:67-163 | Host and registration are those of the agent's first fact; a row counts distinct fact ids, adds up tokens, counts distinct commits (no squash commit of a branch the agent printed a commit on) and distinct branches (no workspace), and its confidence is high, medium or low as the best of the agent's links |
| Stats.RowLabelsAndActivity | packages/agent-stats/src/stats.ts:91-162 | Its work packages are the sorted distinct labels of the agent's links, and its last activity is the latest end among the agent's sessions |
| Stats.TableHasOneRowPerAgent | packages/agent-stats/src/stats.ts:148-162 | One row for each agent with a session and no other, most commits first, then most sessions, then by name |
| Stats.TotalsAreConserved | packages/agent-stats/src/stats.ts:91-99 | Tokens, weighted tokens and sessions over the rows are those of the facts |
| Stats.DistinctSessions | packages/agent-stats/src/stats.ts:95 | With distinct fact ids the sessions add up to the number of facts |
| Report.BuildReport | packages/agent-stats/src/report.ts:121-231 | The report loops compute the per-agent details |
| Report.BranchesAgree | packages/agent-stats/src/report.ts:169-179 | The report lists exactly the branches the table counts |
| Report.CommitsAgreeIff | packages/agent-stats/src/report.ts:155-168 | Report and table agree on an agent's commits iff no two counted names differ in case only |
| Report.CaseClashDisagrees | packages/agent-stats/src/report.ts:155-168 | A commit printed in lower and in upper case is counted twice and reported once |
| Report.CommitsAgreeForLowerCase | packages/agent-stats/src/report.ts:155-168 | They agree when all shas are lower case |
| Report.ReportedCommits | packages/agent-stats/src/report.ts:150-168 | The commits reported of an agent are exactly its first links to each counted commit, whatever the case of its name |
| Report.StrongestCitationsKept | packages/agent-stats/src/report.ts:186-200 | The citations are those of the agent's facts, commits before pull requests before checkouts before pushes before others, each kind in its order; at most five are kept and none dropped is of a stronger kind |
| FocusDeck.AggregatePendingDecisions | packages/focus-interactive/src/contract.ts:86-94 | The map loop and the sort compute the deck, whose order `FocusDeck.AggregateMeans` pins down |
| FocusDeck.DecisionOrder | packages/focus-interactive/src/contract.ts:54-81 | The comparison ranks alerts before decisions before advice before the rest, then the longest waiting, then by key, and is a total order that calls only decisions of one key equal |
| FocusDeck.AggregateMeans | packages/focus-interactive/src/contract.ts:54-94 | The deck puts the most urgent first: no alert after another channel, no decision after advice or no channel, no advice after no channel, within a channel by time and then key; it shows exactly the first decision of each key |
| Sorting.StringLeIff | packages/focus-interactive/src/contract.ts:79-80 | One text stands before another iff it is a beginning of it or has the smaller character where the two first differ |
| FocusDeck.DeckIsUnique | packages/focus-interactive/src/contract.ts:86-94 | No other list has these properties |
| FocusDeck.AggregateIdempotent | packages/focus-interactive/src/contract.ts:86-94 | Aggregating again changes nothing |
| FocusDeck.LanesCompose | packages/focus-interactive/src/contract.ts:86-94 | Aggregating aggregated lanes equals aggregating the raw concatenation |
| DecisionKeys.ParseOfKey | packages/focus-interactive/src/decision-key.ts:71-87 | Parsing a key gives its parts back, whatever colons the id holds |
| DecisionKeys.KeyOfParse | packages/focus-interactive/src/decision-key.ts:71-87 | Whatever parses is the key of its parts |
| DecisionKeys.KeysAreInjective | packages/focus-interactive/src/decision-key.ts:53-65 | Keys of different decisions differ |
| DecisionKeys.ProjectHash | packages/focus-interactive/src/decision-key.ts:25-32 | The loop computes the 32-bit FNV-1a text |
| DecisionKeys.PublishedValues | packages/focus-interactive/src/decision-key.ts:25-32 | The hash has the published values of 32-bit FNV-1a for "", "a", "foo" and "foobar" |
| DecisionKeys.HashIsEightHexDigits | packages/focus-interactive/src/decision-key.ts:25-32 | The hash of any root is eight hexadecimal digits, so it can stand in a key |
| FocusStore.Store.Replace | packages/focus-interactive/src/store.ts:68-86 | A refresh has the effect of the state function and keeps the store invariant |
| FocusStore.Store.SetActive | packages/focus-interactive/src/store.ts:98-104 | An unknown project is refused and nothing changes |
| FocusStore.Store.Move | packages/focus-interactive/src/store.ts:105-110 | Moves in the active lane only |
| FocusStore.Store.Select | packages/focus-interactive/src/store.ts:111-116 | Selects in the active lane only, within range |
| FocusStore.Store.CaptureIntent | packages/focus-interactive/src/store.ts:117-124 | An intent is kept iff its key parses and names a lane |
| FocusStore.RunsStayConsistent | packages/focus-interactive/src/store.ts:51-128 | After any sequence of commands every index is in range for its deduplicated lane, a project is active iff there is one, and the active deck shows a card iff it has any |
| FocusStore.IntentIff | packages/focus-interactive/src/store.ts:117-128 | The intents are exactly those captured for a known project since the last clearing |
| FocusStore.MovesReach | packages/focus-interactive/src/store.ts:105-110 | n moves take the active lane n cards on, or to its end, and change nothing else |
| FocusStore.SelectReaches | packages/focus-interactive/src/store.ts:111-116 | Selecting takes the active lane to the card asked for, or to the nearest there is, and changes nothing else |
| FocusStore.ActivatedStays | packages/focus-interactive/src/store.ts:98-104 | A known project stays active until another is activated or the deck is refreshed; activating an unknown one changes nothing |
| FocusStore.RefreshShowsTheLast | packages/focus-interactive/src/store.ts:68-96 | After a refresh there is a lane for every project listed and no other, with the deck of its last snapshot; the active project stays if listed, else the first one is |
| FocusStore.SnapshotShows | packages/focus-interactive/src/store.ts:51-61 | A snapshot shows every lane in order with the card at its index, and the active one |
| FocusStore.RefreshKeepsSelection | packages/focus-interactive/src/store.ts:68-86 | A refresh keeps the selected card of every lane it knew, as far as the new deck reaches, and starts a new lane at its first card |
| FocusStore.Store.GetSnapshot | packages/focus-interactive/src/store.ts:51-61 | The snapshot of the state |
| FocusStore.CombinedDeckIsRawAggregate | packages/focus-interactive/src/store.ts:51-86 | After a refresh with one snapshot per project the combined deck is the aggregation of all raw decisions |
| WorkerPool.InFlightIsBounded | packages/h2a-runtime/src/fanout.ts:141-156 | Under every interleaving at most max(1, min(limit, n)) tasks are in flight, each with one worker |
| WorkerPool.ClaimedOnceInOrder | packages/h2a-runtime/src/fanout.ts:144-148 | Indices are claimed in input order, each exactly once |
| WorkerPool.FinishedIsComplete | packages/h2a-runtime/src/fanout.ts:149-157 | When all workers have stopped, result i is the outcome of task i, for every i |
| WorkerPool.PoolTerminates | packages/h2a-runtime/src/fanout.ts:144-156 | Every interleaving ends after exactly 2n + width effective turns, and none gets stuck before |
| WorkerPool.SharedPool.TakeTurn | packages/h2a-runtime/src/fanout.ts:143-155 | One turn of a worker on the shared counter and results |
| FanoutPlan.PlanIsCollisionFree | packages/h2a-runtime/src/fanout.ts:89-126 | Exactly count members with safe, distinct names that sort in the order of their numbers |
| FanoutPlan.PlannedIff | packages/h2a-runtime/src/fanout.ts:62-120 | A fan-out is planned iff the base is safe and the count is from one to the cap; one member keeps the bare base, several are named by base, dash and number with as many digits as the count |
| LineageLease.EpochCountsHandoffs | apps/control-plane/src/lineage-lease.ts:183-268 | In every run the epoch counts the handoffs since the record was created |
| LineageLease.TokenIff | apps/control-plane/src/lineage-lease.ts:203-298 | At every point of every run a renewal, handoff or release acts on a record iff it names the holder and presents the number of handoffs since the record was created; otherwise it changes nothing |
| LineageLease.AcquiredIff | apps/control-plane/src/lineage-lease.ts:167-195 | At every point of every run an acquisition is granted iff there is no record or it has expired; the lease then names the caller, at the old epoch or 0, until now + ttl; otherwise it is reported and stays |
| LineageLease.RenewedIff | apps/control-plane/src/lineage-lease.ts:203-227 | A renewal is granted iff it comes from the holder at the current epoch, and changes only the expiry, to now + ttl |
| LineageLease.HandedOnIff | apps/control-plane/src/lineage-lease.ts:239-270 | A handoff is granted iff it comes from the holder at the current epoch; the lease then names the successor with its incarnation and location at the next epoch until now + ttl, and a renewal, handoff or release at that epoch is accepted from the successor and refused to everybody else |
| LineageLease.ReleasedIff | apps/control-plane/src/lineage-lease.ts:279-298 | A release deletes the record iff it comes from the holder at the current epoch |
| LineageLease.RecordNamesTheLast | apps/control-plane/src/lineage-lease.ts:167-298 | At every point of every run there is a record iff somebody was granted the lineage and no release has succeeded since; it names the last one who was, or its successor, and expires as the last granted call says |
| LineageLease.LeaseStandsIff | apps/control-plane/src/lineage-lease.ts:161-298 | All calls of a run are refused, and the lease stands as it was, iff none presents its token and none acquires at or after its expiry |
| LineageLease.HandoffFences | apps/control-plane/src/lineage-lease.ts:229-270 | After a handoff, until the record is deleted, every call presenting an epoch from before it is stale |
| LineageLease.FenceHoldsIff | apps/control-plane/src/lineage-lease.ts:229-298 | From no point of a run after a handoff can a fenced call be accepted again without a deletion on the way, iff the run itself has not deleted the record; after a deletion the way back is constructed, for calls at any times |
| LineageLease.NoFenceIsFinal | apps/control-plane/src/lineage-lease.ts:279-298 | From every record a release by its holder and a series of calls, at any times, lead to a state that accepts any given epoch and holder |
| LineageLease.OneHolderPerEpoch | apps/control-plane/src/lineage-lease.ts:161-270 | Without a takeover the holder stays the same for as long as the epoch does |
| LineageLease.LeaseStore.AcquireLease | apps/control-plane/src/lineage-lease.ts:167-195 | Creates, takes over or reports the conflict; other lineages untouched |
| LineageLease.LeaseStore.RenewLease | apps/control-plane/src/lineage-lease.ts:203-227 | Renews or refuses; other lineages untouched |
| LineageLease.LeaseStore.HandoffLease | apps/control-plane/src/lineage-lease.ts:239-270 | Hands off or refuses as `LineageLease.HandedOnIff` says; other lineages untouched |
| LineageLease.LeaseStore.ReleaseLease | apps/control-plane/src/lineage-lease.ts:279-298 | Deletes or refuses; other lineages untouched |
| InboxBridge.PlanBridge | packages/h2a-runtime/src/h2a-bridge.ts:115-165 | The loops compute the plan |
| InboxBridge.PlanMeans | packages/h2a-runtime/src/h2a-bridge.ts:99-162 | Pulled, once each, are the Pod's files `dir/stem.json` of tame names outside its own directories that the local store lacks; pushed are the local ones of its directories that it lacks |
| InboxBridge.PlanAccountsForAll | packages/h2a-runtime/src/h2a-bridge.ts:126-164 | Pulls, pushes and skips account for every safe in-scope entry |
| InboxBridge.PassIsMerge | packages/h2a-runtime/src/h2a-bridge.ts:377-429 | Carrying out a plan merges the planned files, whatever the order of the listings |
| InboxBridge.BridgeSession | packages/h2a-runtime/src/h2a-bridge.ts:360-440 | One pass computes that merge and accounts for every safe in-scope entry |
| InboxBridge.PassesKeep | packages/h2a-runtime/src/h2a-bridge.ts:377-429 | No pass removes or overwrites a file, whatever transfers fail |
| InboxBridge.TwoRoundsSuffice | packages/h2a-runtime/src/h2a-bridge.ts:115-165 | Two full rounds over any Pods reach a state in which no plan moves anything |
| InboxBridge.OneRoundSufficesIff | packages/h2a-runtime/src/h2a-bridge.ts:115-165 | One round without failures leaves nothing to move iff no entry is sent out only after the turn of a Pod that it is addressed to and that lacks it |
| InboxBridge.OneRoundSufficesForOnePod | packages/h2a-runtime/src/h2a-bridge.ts:115-165 | A single Pod is quiescent after one pass |
| InboxBridge.OneRoundCanBeTooFew | packages/h2a-runtime/src/h2a-bridge.ts:115-165 | With two Pods one round can be too few |
| HookSettings.MergeMatchers | packages/h2a-runtime/src/enroll.ts:390-446 | The nested merge loops compute the merge |
| HookSettings.HasCanonical | packages/h2a-runtime/src/enroll.ts:395-399 | Whether the canonical command is present anywhere |
| HookSettings.MergeNormalises | packages/h2a-runtime/src/enroll.ts:390-450 | Exactly one canonical and no legacy command; unrelated hooks and matchers keep place and order; installation and migration are reported exactly when there was none of ours, and when a legacy or a second one went |
| HookSettings.OurCommandStays | packages/h2a-runtime/src/enroll.ts:395-446 | The command stays where it stands first, or takes the place of the first legacy one, or comes last; all other hooks of ours go |
| HookSettings.InstallHooks | packages/h2a-runtime/src/enroll.ts:388-468 | Both events in turn, with the reported lists |
| HookSettings.InstallIsIdempotent | packages/h2a-runtime/src/enroll.ts:388-450 | A second install changes nothing; other events are untouched |
| HookSettings.OtherValuesAreReplaced | packages/h2a-runtime/src/enroll.ts:388-393 | A value that is no list of matchers is replaced |
| Utf8.DecodeOfEncode | packages/h2a-runtime/src/claude-seat-input.ts:159 | Encoding text as UTF-8 and decoding it gives the text and ends between characters |
| Utf8.PiecesDecodeIff | packages/h2a-runtime/src/attach.ts:245 | Pieces decoded one by one give the text of the whole iff no cut between them splits a character |
| Utf8.SplitsBeforeContinuation | packages/h2a-runtime/src/attach.ts:245 | In well-formed text a cut splits a character iff a continuation byte follows it |
| MaskedInput.PopTakesOneCharacter | packages/h2a-runtime/src/claude-seat-input.ts:79-92 | An erase takes back exactly the last character of encoded text |
| MaskedInput.BufferIsEncodedStack | packages/h2a-runtime/src/claude-seat-input.ts:174-183 | The buffer is the UTF-8 encoding of the stack of characters typed and not erased, and decodes to it |
| MaskedInput.MidCharacter | packages/h2a-runtime/src/claude-seat-input.ts:174-183 | Where a chunk ends inside a character, that encoding is followed by exactly the part that has arrived |
| MaskedInput.StandingTextDecides | packages/h2a-runtime/src/claude-seat-input.ts:185-268 | Whatever is typed and taken back, the characters that stand decide: too many bytes are refused; a Ctrl-D takes everything but itself, a newline the first line, an object or an empty line several lines, each trimmed; the end takes what is there |
| MaskedInput.OutcomeIsFirstDecision | packages/h2a-runtime/src/claude-seat-input.ts:158-228 | The outcome of a list of chunks is that of the bytes up to the first boundary at which they decide on their own |
| MaskedInput.ChunksDecideAlikeIff | packages/h2a-runtime/src/claude-seat-input.ts:158-228 | Chunks decide as one chunk iff the first decision falls in the last chunk, or is a cancellation, or nothing later changes it |
| MaskedInput.ChunkingIsInvisibleIff | packages/h2a-runtime/src/claude-seat-input.ts:158-228 | A stream of bytes has one outcome under every chunking iff each of its prefixes decides nothing or what the whole decides |
| MaskedInput.SingleLineChunkingIff | packages/h2a-runtime/src/claude-seat-input.ts:158-228 | In single-line mode: iff wherever the bytes applied so far are too many or hold a Ctrl-D or a newline, and no Ctrl-C has come, none comes later and the final bytes decide the same |
| MaskedInput.QuietChunksDecideAlike | packages/h2a-runtime/src/claude-seat-input.ts:158-228 | That is so when the chunks before the last hold no Ctrl-C, Ctrl-D or newline and fit the limit |
| MaskedInput.NewlineAtBoundary | packages/h2a-runtime/src/claude-seat-input.ts:162-228 | A newline that ends a chunk completes the entry; in one chunk with what follows a Ctrl-C cancels, a Ctrl-D takes both lines, an erase takes the newline back |
| MaskedInput.ErasedExcess | packages/h2a-runtime/src/claude-seat-input.ts:185-193 | Input too long at a boundary may be within the limit in one chunk |
| MaskedInput.LineEditor.PopLastCharBytes | packages/h2a-runtime/src/claude-seat-input.ts:79-92 | The backward loop removes the last character, and the byte count stays the length |
| MaskedInput.LineEditor.OnData | packages/h2a-runtime/src/claude-seat-input.ts:158-254 | A chunk with Ctrl-C cancels and applies nothing; otherwise its bytes are applied in order and the decoded, trimmed content decides, in single-line or multiline mode |
| MaskedInput.LineEditor.OnEnd | packages/h2a-runtime/src/claude-seat-input.ts:256-268 | The end of the input takes the trimmed content, or refuses when there is none |

## Left out

- `validateSeatBundleForMaterialization`, the tool gate and the receipts of the seat module: field checks and constants; they enter as a refusal before the mark is written.
- Interleavings inside a seat call: the code checks and then writes; each call is one step here.
- Posting, retrying and ordering of attached input, terminal resizing, signals and crash logs.
- `blockKinds` of the runner is written and never read; it is not modelled. Tool inputs are kept as text.
- File types, source paths, communities, weights and other constant attributes of graph nodes and edges; the head sha repeated on a branch node, its edge being modelled; per-session counters of a session node.
- GraphCommits.LogCommitIsDated: for commits whose node no name of another prefix shares, as holds of alphanumeric names; GraphCommits.CommitNodeDate says what any commit node carries.
- The evidence text of correlation links, the parser of checkout commands, instance matching and identity resolution: inputs of a fact.
- Cost weighting of tokens and the parser of work-package labels: inputs.
- Report.BuildReport: without feature labels, the unattributed residual, conflicts, host and workspace fields, which are copied or only formatted.
- Report rendering, the sessions report and the table layout.
- Listeners of the focus store.
- Unparsable enrolment times, which make the source's comparison of pending jobs inconsistent.
- JobScheduler.SlotsStayBounded: a conductor pass is one step, and launching a job in it is success or failure; other writers between the listing and the launch are not modelled.
- Throttle signature tables and the resume commands.
- The timeout, the stream error and the terminal mode of masked input; whether a text parses as an object is a parameter.
- Parsing of Pod listings, kubectl transport and instance naming of the bridge; a pass is one step and listings are exact.
- Reading, backing up and writing of the settings file around the hook merge.
- Transcript parsers, discovery, process control, HTTP routes, configuration and everything else outside these cores.
