# kritika, modelled in Dafny

kritika reviews pull requests with a language model. This project models the parts of it whose correctness is
argued in comments or is not argued at all, and proves what those parts promise: a listener that may drop events
but never loses track of them, an index kept incrementally, an agent loop behind a wire codec and a token ledger,
a diff reader and the suggestions anchored on it, prompts within a budget, a template sandbox, a Markdown code
scanner, masking, and the leases, leader lock and rows that replicas share.

`dafny verify dfyconfig.toml` verifies everything. Each module stands for one or two source files and follows their
form: classes with fields that methods update, loops with invariants, and beside them functions that say what those
methods compute and lemmas about the functions. Where several replicas, goroutines or transactions interleave, the
module is a state machine over atomic steps (`Apply`), its main results are about every run (`Run`), and the code is
a class whose methods are proved to take only steps of that machine, whatever the others do between them
(`EventQueue.Listener`, `TokenLedger.Gateway`, `Leader.Database`, `Leases.Slots`, `IndexGeneration.Tables`,
`PullRows.PullRequest`). Elsewhere a method's `ensures` ties it to the function the lemmas are about, as
`TemplateSandbox.Guard` is tied to the counter the render carries.

| module | what it models |
|---|---|
| `EventQueue` | the notification listener: one producer, one consumer, a bounded channel that drops, evicts and resyncs |
| `Indexer`, `FileCutter`, `IndexGeneration`, `IndexRows` | chunking a tree or a step of it, and one file; generations activated, advanced, swept and rebuilt under concurrent jobs, and which of them have rows |
| `UnifiedDiff`, `DiffFacts` | the unified diff reader, against the format as `diff -u` and git write it, and what is gathered from its lines |
| `Conversation`, `AgentLoop`, `ChatCodec`, `LoopOverTheWire` | the tool loop, the chat completions codec, and the two composed |
| `TokenLedger` | reservations, charges, retries and fallback of a run's token budget |
| `Findings`, `PromptBudget`, `RunnerPrompt` | the review contract with anchored suggestions; prompt assembly within a budget; what a runner's Secret carries |
| `TemplateSandbox`, `Measure` | the rewriting of templates under an iteration guard; the early-exit size guard |
| `ProseScanner`, `FencedBlocks` | fenced blocks and code spans, and section 4.5 of CommonMark beside them; the fence of an agent prompt |
| `Masking`, `Windows` | secrets in transcripts; line ranges, windows and the choice of declarations |
| `Leases`, `Leader`, `PullRows` | leases with expiry, the leader's session lock, the last-writer-wins row |
| `Text`, `Prelude` | strings as Go's `strings` and `strconv` treat them; shared definitions |

A `string` stands for bytes, one char a byte; white space is the ASCII set. Numbers are unbounded where the source's
cannot overflow in practice and 64-bit where it matters (`Measure`, diff line numbers). A SQL statement or transaction
is one atomic step. Parameters stand for what lies outside: JSON and YAML decoding, the language parser and the ignore
globs, the template engine's functions, regular expressions, the model and its tools, clocks and random draws.

## Findings

Where a promised property does not hold in general, the code is kept as it is, a lemma gives the input, and another
says exactly when the property holds.

- A change of embedder while a full index build is running deletes the rows the build has embedded and supersedes its
  run, yet the build goes on and is made active with the rows that are left (`IndexGeneration.RebuildUnderABuild`); one
  that had embedded nothing yet becomes active whole, but of the old embedder
  (`IndexGeneration.OldEmbedderBecomesActive`). And a step re-cuts only the paths that differ: what a change of the
  repository's own ignore globs makes of the other files it does not see (`IndexGeneration.StepOverAReconfiguration`).
  Over any run the active generations are exact throughout if and only if each full build that was made active still
  had all its rows and each step that moved an active generation was between commits configured to have the files it
  left alone cut alike (`IndexGeneration.ActiveGenerationsAreRebuildsIff`); they are of the recorded embedder throughout
  if and only if each full build was made active under its own (`IndexGeneration.ActiveGenerationsAreRecordedIff`).
- The comment on `StartIndexRun` has only the active generation keep its chunks, any others being left by a job that
  could not clear them. A forced rebuild beside an update leaves some as well (`IndexRows.TwoBuildsLeaveRows`):
  `IndexRows.NoRowsAreLeftIff` says over any run what leaves rows, and `IndexRows.StartsCollectWhatIsLeft` that a later
  start collects them.
- The comment on `measure` promises every string's length and eight bytes an element; nested as deep as the limit, a value
  counts for eight bytes instead (`Measure.SizeIsWhatItHolds`, `Measure.AtTheLimitIff`).
- A negative step limit is not defaulted and never met (`AgentLoop.NegativeStepsNeverEnd`). A run ends whatever the
  model does if and only if the step limit is not negative or there is no budget to begin with
  (`AgentLoop.EveryRunEndsIff`). The configuration refuses limits that are not positive
  (internal/configfile/load.go:485-491), so this is not reached through it.
- A successful tool output that begins with `Error: ` is read as a failure on the other side of the wire
  (`ChatCodec.LoopRequestsRoundTrip` is an if-and-only-if); a wholly empty user message after one that carries only
  tool results leaves no trace (`ChatCodec.ReencodingReproducesTheWire`).
- A path that ends in white space, which git prints unquoted, is read without it (`UnifiedDiff.SpaceAtTheEndIsLost`),
  and one that a writer quotes, as git does names that are not ASCII, is read with its quotes and prefix
  (`UnifiedDiff.QuotesAreKept`). A side reads back to its path if and only if the path is neither
  (`UnifiedDiff.SideReadsBack`), and a diff's lines come under its own paths if and only if no file that shows a line
  has such a name (`UnifiedDiff.ReaderYieldsTheHunksIff`).
- The comment on `product` promises x*y clamped; of two negative factors it gives zero (`Measure.ProductIsClamped`),
  which no caller passes (internal/review/sandbox.go:330-361). `abs` of the least 64-bit integer is negative, which
  makes `until`'s estimate zero (`Measure.AbsIsExact`). `span` subtracts and divides in 64 bits: it says too few steps,
  and then none, exactly when the step leads to the stop and the difference or the quotient does not fit
  (`Measure.SpanUnderestimatesIff`), and where it leads elsewhere it can say the most there is
  (`Measure.SpanOfNoSteps`); `Measure.SpanIsExact` says when it is exact.
- Masking promises that every non-empty secret is masked. A secret that begins or ends with a star, or holds three in a
  row, can reappear out of the inserted stars, and no other can (`Masking.PassRemovesExactlyTheUnstarred`): it is such
  secrets that some list holding them fails to mask (`Masking.EveryListMasksExactlyTheUnstarred`).
- The suggestion made of an insertion closes early if and only if the line it keeps is itself a closing fence of three
  backticks or more: added lines are stripped of fences, that line is not (`Findings.SuggestionIsOneBlockIff`). That of
  a plain replacement never does (`Findings.ReplacementIsOneBlock`).
- Windows with a negative overlap leave gaps if and only if one window is not enough (`Windows.WindowsCoverIff`). The
  one caller's overlap is the constant ten (internal/indexer/indexer.go:47).
- The comment on `mapProse` promises fences as CommonMark reads them. The scanner's blocks are those of section 4.5, read
  line by line, if and only if no backtick fence has a backtick after it on its line, no span holds the start of a line
  that opens a block, and no fence that closes with text to follow has white space after it that is neither spaces nor
  tabs (`FencedBlocks.BlocksAgreeIff`). Each can fail: `FencedBlocks.SpanOfThreeAtALineStart`,
  `FencedBlocks.SpanOverAFence`, `FencedBlocks.OtherSpaceAfterAFence`.
- Two leases taken for one job on one key can come to share a slot (`Leases.OneJobCanHoldASlotTwice`). A take is safe,
  whatever follows, if and only if it does not give a job a slot that another of its leases may still renew or release
  (`Leases.TakeIsSafeIff`), which a job with one lease at a time never risks (`Leases.OneAtATimeIsCalm`).
- Events of a pull request need not converge. Two commute exactly when one is older than the row, or their times differ
  and the newer is a report or the older brings no new content, or else they write the same
  (`PullRows.EventsCommuteIff`; from no row, `PullRows.FirstReportsCommuteIff` and
  `PullRows.CloseAndFirstReportCommuteIff`). A close that overtakes the first report is lost
  (`PullRows.CloseBeforeTheRowIsLost`): from no row, what became of the pull request is what the newest event says if
  and only if one as new comes with the first report or after it (`PullRows.NewestFateShowsIff`). A close moves the
  timestamp and not the content (`PullRows.ContentDoesNotConvergeWithCloses`): the newest report's content shows if and
  only if nothing newer was recorded before it, or what it found says the same (`PullRows.NewestContentShowsIff`); where
  it is new, if and only if neither the row nor a close before it is newer (`PullRows.NewContentShowsIff`).

## Model

| member | source | states |
|---|---|---|
| EventQueue.EveryLossIsCovered | internal/store/notify.go:233-304 | In every interleaving of producer, consumer and database, for any capacity of at least one: every event dropped, evicted or missed while disconnected is covered by a resync that is queued or was started after the loss, or that the producer is about to queue. |
| EventQueue.FinalSendNeverBlocks | internal/store/notify.go:292-304 | The last send after an eviction finds room in every reachable state if and only if the channel has a buffer. |
| EventQueue.DeliveredInOrderAndConserved | internal/store/notify.go:149-162 | Callbacks run in arrival order, nothing overtakes, and every event that arrived was delivered, waits or was lost, exactly once. |
| EventQueue.Listener.Interleave | internal/store/notify.go:152-162 | The consumer's receives between two producer operations are steps of the protocol and only start callbacks. |
| EventQueue.Listener.EnqueueReconnect | internal/store/notify.go:292-304 | From any valid state it takes only protocol steps, never waits, and leaves a resync last in the queue. |
| EventQueue.Listener.EvictOldest | internal/store/notify.go:298-302 | The second select: one item out, or none if the consumer emptied the channel, as one step. |
| EventQueue.Listener.Deliver | internal/store/notify.go:269-280 | It queues the event or reports the drop; the first drop of a run of drops leaves a resync last, a later one happens only at a full queue. |
| EventQueue.Listener.Connected | internal/store/notify.go:229-237 | A connection after an earlier one queues a resync before it reads; the first one queues nothing. |
| Indexer.FullWalkAt | internal/indexer/indexer.go:95-104 | At every path, a full walk's chunks are exactly that file's, whatever the order of the walk. |
| Indexer.StepWalkAt | internal/indexer/indexer.go:106-137 | A step's noted paths and chunks: at a noted path exactly the head's chunks, elsewhere none, and there base and head cut alike. |
| Indexer.Builder.AddFile | internal/indexer/indexer.go:139-182 | It stops exactly when a budget is spent, and otherwise adds the file's chunks and counts it once. |
| Indexer.Builder.WalkAll | internal/indexer/indexer.go:95-104 | Without truncation, the chunks of all files in order; with it, those of a proper prefix. |
| Indexer.Builder.WalkChanged | internal/indexer/indexer.go:106-137 | Without truncation, the chunks of the new sides and the differing paths once each, deleted ones included; with it, the chunks of those before the one at which a budget was spent. |
| FileCutter.File | internal/indexer/indexer.go:139-182 | A file past the budgets is skipped exactly when it is too large, ignored, of no known language, binary, empty or not UTF-8, and else cut into a chunk for each piece that has text. |
| FileCutter.ChunksHoldTheirLines | internal/indexer/indexer.go:171-180 | Every chunk names its file and holds a non-empty cut of exactly the lines it claims. |
| FileCutter.EveryPieceIsAChunk | internal/indexer/indexer.go:171-180 | Every piece of a file that is not skipped has its chunk, unless its text is empty. |
| FileCutter.ChunksFollowThePieces | internal/indexer/indexer.go:171-180 | In the order of the pieces. |
| FileCutter.CutFileNamesItsFile | internal/indexer/indexer.go:171-180 | So this way of cutting is one the index results hold for. |
| IndexGeneration.ActiveGenerationIsARebuild | internal/store/indexgen.go:98-248 | Over every interleaving of starts, embedding, activations, advances, failures, crashes, sweeps, schema rebuilds and time in which every full build made active still has the rows it embedded and every step that moves an active generation leaves no file that is now cut otherwise: each active generation holds exactly what a full walk of its recorded commit would. |
| IndexGeneration.ActiveGenerationsAreRebuildsIff | internal/store/indexgen.go:201-235 | Over any run at all, every active generation is exact in every state if and only if that holds of every swap. |
| IndexGeneration.ActiveGenerationsAreRecordedIff | internal/store/index.go:15-56 | Over any run at all, every active generation is of the recorded embedder in every state if and only if every full build was made active under the embedder it was built with. |
| IndexGeneration.ActivationIsExactIff | internal/store/indexgen.go:201-219 | An activated full build is exact if and only if all its rows are still there, which they are while its run counts as running. |
| IndexGeneration.RebuildUnderABuild | internal/store/index.go:42-56 | A run in which a schema rebuild under a full build leaves an active generation that lacks its file's chunks. |
| IndexGeneration.OldEmbedderBecomesActive | internal/store/index.go:42-56 | A run in which a build begun before a schema rebuild becomes active, whole, of the old embedder. |
| IndexGeneration.StepOverAReconfiguration | internal/indexer/indexer.go:106-137 | A run in which a step over a change of the rules leaves the chunks of a file that they now skip. |
| IndexGeneration.StepIsExact | internal/store/indexgen.go:221-235 | Deleting the changed paths and moving in a step's rows makes of an exact generation of the base an exact one of the head, where both are configured to have the other files cut alike. |
| IndexGeneration.FullBuildIsExact | internal/store/indexgen.go:201-219 | A full build that lost nothing is an exact generation once swapped in. |
| IndexGeneration.SweepKeepsInv | internal/store/index.go:118-151 | Sweeping disabled repositories keeps every other generation exact and every job's rows in place. |
| IndexGeneration.RebuildKeepsInv | internal/store/index.go:42-56 | A schema rebuild leaves no generation active and accounts for the rows each job loses. |
| IndexGeneration.Tables.Start | internal/store/indexgen.go:98-113 | Stray rows of the repository are dropped, those of the active generation and of young runs kept, and the run is recorded as running. |
| IndexGeneration.Tables.Keep | internal/store/indexgen.go:225-227 | The rows at other paths, in order. |
| IndexGeneration.Tables.Advance | internal/store/indexgen.go:224-235 | The changed paths' rows are replaced by the step's, and the generation is at the new commit. |
| IndexGeneration.Tables.BeginRun | internal/worker/index.go:108-144 | A job begins as one step of the protocol unless the active generation is at its commit already. |
| IndexGeneration.Tables.EmbedBatch | internal/worker/index.go:271-300 | A batch is one step: its rows, in order, under the run. |
| IndexGeneration.Tables.SwapRun | internal/worker/index.go:305-329 | The last transaction is one step: activate or advance, clear, complete. |
| IndexGeneration.Tables.Index | internal/worker/index.go:56-330 | Whatever the rest of the system does between its transactions, a job takes only steps of the protocol and keeps the invariant, unless it swaps in a full build that lacks rows or steps over a change of the configuration, and then it leaves a wrong generation active; one that has its batches and does not fail does swap. |
| IndexRows.NoRowsAreLeftIff | internal/store/indexgen.go:86-113 | Over any run at all, only active generations and jobs in flight have rows in every state, if and only if no worker was killed with rows of its run in the table, no full build replaced another generation than the one it had found, and no step came to a generation active no more. |
| IndexRows.StartsCollectWhatIsLeft | internal/store/indexgen.go:86-103 | In any run, after a start the runs of its repository that have rows are the active generation or at most four hours old, and no job in flight and no active generation lost one to it. |
| IndexRows.TwoBuildsLeaveRows | internal/store/indexgen.go:86-90 | A run in which a forced rebuild beside an update leaves the rows of the first to swap in. |
| IndexRows.ActivationRows | internal/store/indexgen.go:201-219 | A full build's swap: its run is active and completed, the generation it found is superseded and has no rows, and nothing else changes. |
| IndexRows.StepRows | internal/store/indexgen.go:221-235 | A step's swap: its rows are in the generation it found, in place of those at the changed paths, none are left under its own run, and nothing else changes. |
| IndexRows.FailureRows | internal/store/indexgen.go:237-248 | A failed job's run has no rows left, and nothing else changes. |
| IndexRows.StartRows | internal/store/indexgen.go:98-113 | A start drops the rows of its repository's runs that are not active and over four hours old, and no others. |
| IndexRows.SweepRows | internal/store/index.go:113-151 | A sweep leaves its repositories without a generation, the ones they had superseded and without rows, and nothing else changes. |
| IndexRows.RebuildRows | internal/store/index.go:42-56 | A schema rebuild leaves no generation and no rows, and supersedes every run that was running or completed. |
| UnifiedDiff.WalkDiff | internal/contextpack/diff.go:31-84 | The loop with its counters hands out the lines that the line-by-line reader describes. |
| UnifiedDiff.HunkHeaderReadsBack | internal/contextpack/diff.go:146-175 | Every rendered hunk header, counts of one left out or not, reads back to its four numbers. |
| UnifiedDiff.SideReadsBack | internal/contextpack/diff.go:138-144 | A side's name, prefixed, quoted or not, with or without a tab, reads back trimmed at its end or as it is quoted, and so to its path if and only if that is not quoted and does not end in white space. |
| UnifiedDiff.SpaceAtTheEndIsLost | internal/contextpack/diff.go:138-144 | A file whose name ends in a space is taken for the one named without it. |
| UnifiedDiff.QuotesAreKept | internal/contextpack/diff.go:138-144 | A quoted name is taken for the path, its quotes and prefix included. |
| UnifiedDiff.ReaderYieldsTheHunks | internal/contextpack/diff.go:31-84 | From every well-formed rendered diff the reader yields exactly the hunks' lines with their numbers and hunk, under the paths as read, whatever the lines read like. |
| UnifiedDiff.ReaderYieldsTheHunksIff | internal/contextpack/diff.go:31-84 | They are under the diff's own paths if and only if no file that shows a line has a name that is quoted or ends in white space. |
| DiffFacts.ParseDiff | internal/contextpack/diff.go:86-103 | The three maps it fills are those of the lines it was handed. |
| DiffFacts.NumbersAreTheEdits | internal/contextpack/diff.go:86-103 | Of a rendered diff, the added map holds under a path exactly the head numbers of the lines added to it, the removed map the base numbers of those removed, in order, and neither holds a path without one. |
| DiffFacts.ShownLinesAreTheHeadLines | internal/contextpack/diff.go:125-136 | Of a diff against a head, under the paths as read, exactly the covered lines are shown, and the text held for line n is line n of the file. |
| DiffFacts.ShownLinesOfPlainPaths | internal/contextpack/diff.go:125-136 | Where no shown path is quoted or ends in white space, under the diff's own paths. |
| DiffFacts.ChangedLines | internal/contextpack/diff.go:105-123 | The counter is the number of added and removed lines under paths that are not ignored. |
| DiffFacts.ChangedLinesCountsTheEdits | internal/contextpack/diff.go:105-123 | Of a rendered diff it is exactly the edits of the files no glob matches, by head path or by base path once deleted. |
| DiffFacts.Hunks | internal/contextpack/diff.go:191-219 | The buffer and flush loop gathers one text per hunk. |
| DiffFacts.HunksAreTheHeadTexts | internal/contextpack/diff.go:191-219 | Of a rendered diff these are the head sides of its hunks, in order, deleted files and blank ones left out. |
| AgentLoop.Ask | internal/agent/loop.go:189-200 | A step is sent again only after transient failures and waits that ran out, at most four times. |
| AgentLoop.Send | internal/agent/loop.go:171-200 | The request carries the conversation, told to submit on the last step or near the budget. |
| AgentLoop.Step | internal/agent/loop.go:159-316 | One turn of the loop ends the run with the verdict of its turns or carries on what they come to; both are stated of the answer and its calls by the lemmas below. |
| AgentLoop.CallAll | internal/agent/loop.go:241-291 | The calls run in order up to the first that ends the run, and come to what `AgentLoop.CallsComeTo` says of each. |
| AgentLoop.Settle | internal/agent/loop.go:222-316 | How an answered step ends the run (`AgentLoop.AnsweredTurnEnds`), or what conversation the next step continues (`AgentLoop.NextMessages`). |
| AgentLoop.Do | internal/agent/loop.go:142-318 | Wherever every run ends it ends, within the step limit, with the verdict of the turns it had; a submission is set exactly when the stop is submitted. |
| AgentLoop.ConversationsAreWellShaped | internal/agent/loop.go:154-316 | In every run each request opens and ends with the user, alternates, and answers each tool call once, in order, in the next message. |
| AgentLoop.CallsAreAnswered | internal/agent/loop.go:245-291 | Calls that end nothing have one result each, in order, by id. |
| AgentLoop.CallsComeTo | internal/agent/loop.go:245-291 | Which call ends the run is said by the call, the check, the stop and whether the step is forced: the first submit call that passes, or fails where it was cut off or forced; all others are told of. |
| AgentLoop.ResultsTellTheCalls | internal/agent/loop.go:262-290 | Result i of the next request is the cut output and no error exactly where call i is of an offered tool that returned it, the cut error text and an error where the tool failed, and otherwise the unknown-tool or the rejected-submission error. |
| AgentLoop.NextMessages | internal/agent/loop.go:235-237 | What follows an answered turn: what was sent, then what the model said and either the nudge or the results. |
| AgentLoop.SilenceIsNudged | internal/agent/loop.go:222-239 | A turn without calls that ends nothing is followed by its text, or the text that stands for none, and the nudge. |
| AgentLoop.OpensWithTheUser | internal/agent/loop.go:154-179 | The first request is what the user says, and but for the order to submit nothing else. |
| AgentLoop.AnsweredTurnEnds | internal/agent/loop.go:222-313 | An answered turn ends as submitted, cut off or without a submission at its first call that ends one, else at the step limit or at the second silence, and goes on otherwise. |
| AgentLoop.AnswerIsTheFirstThatStands | internal/agent/loop.go:189-200 | A step's answer is the first attempt that is no transient failure, of at most five, each after a wait that ran out; the last one made when there is none. |
| AgentLoop.SpendIsEveryToken | internal/agent/loop.go:165-166 | The spend is the input, cache and output tokens of every answered turn. |
| AgentLoop.ConversationsGrow | internal/agent/loop.go:235-316 | Each request extends the one before by exactly an assistant and a user message. |
| AgentLoop.StepsAreBounded | internal/agent/loop.go:159-172 | No run takes more turns than the step limit, and no more of them are answered than there are. |
| AgentLoop.SpendIsUnderBudget | internal/agent/loop.go:165-169 | Before every step the spend is under the budget. |
| AgentLoop.NudgedOnce | internal/agent/loop.go:222-239 | At most one answered turn without calls is followed by another step. |
| AgentLoop.ForcedIsTold | internal/agent/loop.go:171-179 | A step is forced exactly on the last step or from nine tenths of the budget in tokens, and then its last message ends with the order to submit, alone or after an empty line. |
| AgentLoop.SubmissionIsAcceptable | internal/agent/loop.go:249-269 | An accepted submission is the input of a submit call that passed the check, and no call before it was one. |
| AgentLoop.NegativeStepsNeverEnd | internal/agent/loop.go:159-172 | With a negative step limit some model keeps the loop going for any number of steps. |
| AgentLoop.EveryRunEndsIff | internal/agent/loop.go:159-172 | A run ends in every world if and only if its step limit is not negative, zero being the default, or its budget is not positive. |
| ChatCodec.DecodeChatRequest | internal/model/chat.go:63-119 | The loop that edits the last message in place decodes what folding message by message decodes, errors included. |
| ChatCodec.DecodesIff | internal/model/chat.go:66-165 | A request is refused exactly when a message is of an unknown role or holds content that is no text, or the choice of tools is none of the known ones. |
| ChatCodec.SystemIsSetAside | internal/model/chat.go:83-109 | System and developer texts are gathered in order, and the conversation is what the other messages alone would give. |
| ChatCodec.PartsAreJoined | internal/model/chat.go:121-145 | The texts of content parts follow each other, and a part of another kind cannot be read. |
| ChatCodec.SystemIsJoined | internal/model/chat.go:109 | System texts are joined by empty lines. |
| ChatCodec.OpenAIMessages | internal/model/openai.go:267-298 | One message on the wire, element by element: each result a tool message with its call's id, a failure prefixed, then the text; an assistant's text or nothing, and its calls with an empty object for missing input. |
| ChatCodec.EncodeParams | internal/model/openai.go:223-265 | The whole request on the wire; a positive bound stands in the one field the provider documents, the other is not sent. |
| ChatCodec.ResponseWired | internal/model/chat.go:176-216 | A response on the wire: content unless there are only calls, the calls as they are, and the prompt with what the cache read and wrote. |
| ChatCodec.RequestDecodes | internal/model/chat.go:66-119 | Decoding any encoded alternating request gives its messages back with only results read anew. |
| ChatCodec.LoopRequestsRoundTrip | internal/model/chat.go:66-119 | Encoding then decoding a loop-shaped request is the identity up to an unset choice and empty inputs, if and only if no successful output begins like a failure. |
| ChatCodec.ReencodingReproducesTheWire | internal/model/chat.go:78-107 | For any conversation, decoding and encoding again gives the same wire messages if and only if no wholly empty message follows one that is still open. |
| ChatCodec.ResponsesRoundTrip | internal/model/chat.go:170-216 | A response survives the wire if and only if its stop has a wire form, its uncached prompt is not negative, no input is empty and a model is named. |
| LoopOverTheWire.EveryStepReachesTheGateway | internal/agent/loop.go:181-190 | In every run of the loop each step's request is read by the gateway as built, under the exact condition of the codec. |
| LoopOverTheWire.EveryStepReencodes | internal/model/openai.go:267-298 | Each step's conversation, read and encoded again, is the same on the wire. |
| TokenLedger.SpentIsAccounted | internal/store/gateway.go:66-88 | Over all interleavings the counter is settled spend plus outstanding estimates, refunded steps contributing nothing. |
| TokenLedger.SpendIsBounded | internal/store/gateway.go:66-78 | It never passes the budget less one by more than the largest reservation and what steps spent beyond theirs. |
| TokenLedger.BoundIsReached | internal/store/gateway.go:66-78 | That bound is met, for every budget and any larger reservation. |
| TokenLedger.FailedStepsLeaveNothing | internal/gateway/gateway.go:339-350 | A failed step whose refund is written counts as if it had never been. |
| TokenLedger.LastTryIsFirst | internal/gateway/gateway.go:305-325 | The attempt that ends a step is the first that may, within the retries, every earlier one having failed transiently. |
| TokenLedger.Step | internal/gateway/gateway.go:305-325 | It makes exactly the attempts up to that one and returns its reply. |
| TokenLedger.Reservation | internal/gateway/gateway.go:207-213 | A step's estimate is a quarter of the body, rounded down, and the answer it asks for, or the most one may be where it asks for none or more; it is positive and bounded by the largest of both. |
| TokenLedger.Gateway.ReserveTokens | internal/store/gateway.go:66-78 | It grants exactly an unexpired row under its budget, and a refusal changes nothing. |
| TokenLedger.Gateway.ChargeToken | internal/store/gateway.go:80-88 | The counter moves by the difference, nothing once the row is gone. |
| TokenLedger.Gateway.Charge | internal/gateway/gateway.go:339-352 | Written, an answer of p and o tokens leaves the call settled at p + o and moves the counter of a row that lives by that less the reservation; a failure leaves it refunded and moves it by minus the reservation; not written, nothing moves. |
| TokenLedger.Gateway.Chat | internal/gateway/gateway.go:168-246 | Whatever else happens before and during it, a served step reserves once for all attempts, the fallback's included, returns the reply of the first that stands, and settles that reply's tokens as Charge says. |
| TemplateSandbox.HardeningKeepsMeaning | internal/review/sandbox.go:108-176 | A hardened template renders what it rendered as written if the loops that render reached range over no function or channel and come to at most the budget, counted by the value's own size, and fails otherwise. |
| TemplateSandbox.ExecuteRendersAsWritten | internal/review/sandbox.go:90-117 | The whole of a render: what the template says, exactly when it defines no other, uses no reserved name and its loops come to no more than the budget by the values' own sizes; an error otherwise. |
| TemplateSandbox.LoopsAreBounded | internal/review/sandbox.go:246-261 | However a hardened render ends, its loops ran at most the budget of bodies in all, nested ones included. |
| TemplateSandbox.HardenAcceptsThePermitted | internal/review/sandbox.go:112-167 | It refuses exactly the templates among whose names, wherever they stand, one begins with the sandbox's prefix, or that call a template anywhere. |
| TemplateSandbox.ChargeCoversRounds | internal/review/sandbox.go:263-276 | A charge that passes pays for every round the engine runs over the value. |
| TemplateSandbox.IterationsAreTheCost | internal/review/sandbox.go:263-276 | What the guard counts is the value's size: the bytes of a string, the elements of a list, the entries of a map, a number that is not negative, one pass over nothing else; a function or channel has none. |
| TemplateSandbox.LoopRendersEachItem | internal/review/sandbox.go:90-117 | A range of a text over a list, map or number writes the text once for each item where they are within the budget, and fails past it. |
| TemplateSandbox.PipeKeepsUsed | internal/review/sandbox.go:52-58 | A pipeline without reserved names neither reads nor moves the guard's counter. |
| TemplateSandbox.Guard.Charge | internal/review/sandbox.go:246-261 | The counter moves by the bytes, elements, entries or the number ranged over and the value passes unchanged, as long as that stays within the budget; a function, a channel or a count past it is refused. |
| Measure.MeasureValue | internal/review/sandbox.go:288-323 | With any limit, the exact recursive size when within it, a value over it and no larger than the size otherwise. |
| Measure.MeasureAll | internal/review/sandbox.go:303-320 | The same for a list's early-exit loop, each element against what is left of the limit. |
| Measure.MeasureEntries | internal/review/sandbox.go:309-314 | The same for a map's entries. |
| Measure.OrderDoesNotMatter | internal/review/sandbox.go:309-314 | A map's size does not depend on the order its range takes. |
| Measure.SizeIsWhatItHolds | internal/review/sandbox.go:288-323 | Of a value nested less than the depth limit the size is the length of every string and eight bytes for each element, entry and field. |
| Measure.AtTheLimitIff | internal/review/sandbox.go:297-299 | At the limit a value counts for eight bytes, which is what it holds if and only if it holds eight. |
| Measure.Refuses | internal/review/sandbox.go:219-232 | Refusal exactly when the sizes and the estimate pass the limit; of arguments nested less than the depth limit, when what they hold does. |
| Measure.ProductIsClamped | internal/review/sandbox.go:365-374 | The clamped true product, without overflow, except of two negative factors. |
| Measure.AbsIsExact | internal/review/sandbox.go:376-381 | The absolute value, except of the least 64-bit integer. |
| Measure.SpanIsExact | internal/review/sandbox.go:383-390 | The number of whole steps towards the stop, none for a step that leads elsewhere, if and only if difference and quotient fit 64 bits, the step is zero, or it leads elsewhere and the wrapped difference comes to nothing. |
| Measure.SpanUnderestimatesIff | internal/review/sandbox.go:383-390 | It says fewer exactly when the step leads to the stop and one of them does not fit, and the estimate is then zero. |
| Measure.SpanOfNoSteps | internal/review/sandbox.go:383-390 | It can be the greatest 64-bit integer where no step leads. |
| Leases.InDateHoldersNeverShare | internal/store/lease.go:71-152 | In every run in which no take clashes, two in-date holders own different slots, each still its own; a job may take, release and take again. |
| Leases.OthersNeverAlterAHeldSlot | internal/store/lease.go:117-152 | In such a run no heartbeat or release of another holder, late or not, changes an in-date holder's row. |
| Leases.TakeIsSafeIff | internal/store/lease.go:78-83 | Every continuation without a clash keeps each in-date holder's slot its own, if and only if the take gives its job no slot another of the job's leases may still renew or release. |
| Leases.OneAtATimeIsCalm | internal/worker/base.go:66-79 | A job that takes a lease only when none of its earlier ones can act, dead or released, never clashes. |
| Leases.BeatSharesIff | internal/store/lease.go:129-133 | A heartbeat puts two in-date holders on one slot if and only if it is of the other's job and slot. |
| Leases.ReleaseTakesIff | internal/store/lease.go:144-145 | A release takes an in-date holder's row from it if and only if it is of that holder's job and slot. |
| Leases.HoldersFitTheSlots | internal/store/lease.go:51-55 | In such a run the in-date holders of the first n slots are at most n, however the limit moved. |
| Leases.HoldersNeverExceedTheOffer | internal/store/lease.go:71-100 | In such a run, if no take offered more than n slots, at most n holders are in date. |
| Leases.SlotFreeIffTaken | internal/store/lease.go:102-115 | The hint is true exactly when a take would succeed in that state. |
| Leases.LowestFreeIsLowest | internal/store/lease.go:78-83 | The slot chosen is offered, free and unlocked, and no lower one is; none only when there is none. |
| Leases.OneJobCanHoldASlotTwice | internal/store/lease.go:129-133 | A run in which two leases for one job share a slot in date. |
| Leases.Slots.TakeLease | internal/store/lease.go:69-100 | One Take step: missing rows are created, the chosen one is claimed until the expiry, or zero is returned. |
| Leases.Slots.Heartbeat | internal/store/lease.go:117-135 | One Beat step: the row is renewed only while it is the job's. |
| Leases.Slots.FreeRow | internal/store/lease.go:141-152 | One Release step, or the lease's end when the write fails: the row is freed only while it is the job's. |
| Leases.Slots.AcquireLease | internal/store/lease.go:51-67 | It acquires at the first of its tries that finds a slot offered, free and unlocked, and returns none only if no try found one; whatever the other jobs do between them, only steps without a clash are taken. |
| Leases.Slots.WithLease | internal/worker/base.go:63-88 | The job runs whenever a try finds a slot. Acquire, beat and release, whatever the other jobs do between: only steps without a clash, of its own lease exactly one heartbeat a tick and then the release, the job left with nothing that may act, and its own row given back when its last renewal was in date. |
| Leases.Backoff | internal/store/lease.go:28-37 | The base doubled n times and capped, jittered into its upper half. |
| Leases.DoublingAdds | internal/store/lease.go:28-37 | Doubling a times and then b times is doubling a + b times, and once is twice as much. |
| ProseScanner.ProseAndCodeSplitTheText | internal/review/links.go:145-188 | Any text splits into alternating prose and code that concatenate back to it; mapping prose to itself changes nothing. |
| ProseScanner.CodeIsABlockOrASpan | internal/review/links.go:145-238 | What counts as code at a position: a fence up to its first closing line or the end, a span up to the next run of exactly its length, or nothing. |
| ProseScanner.MapProse | internal/review/links.go:151-188 | The index loop applies the function to the prose segments and copies the code. |
| ProseScanner.FenceEndIsFirstCloser | internal/review/links.go:200-221 | The end found is just past the first line that closes, or the text's end when none does. |
| ProseScanner.FindFenceEnd | internal/review/links.go:200-221 | The loop finds that end. |
| ProseScanner.Closes | internal/review/links.go:213-219 | Whether a line closes: at most three spaces, a run long enough, then white space. |
| ProseScanner.CloserIff | internal/review/links.go:213-219 | Those lines are exactly at most three spaces, at least as many fence characters, and white space. |
| ProseScanner.SpanEndIsNextRun | internal/review/links.go:223-238 | The end found is just past the next run of exactly the same length, zero when there is none. |
| ProseScanner.FindSpanEnd | internal/review/links.go:223-238 | The loop finds that end. |
| ProseScanner.Run | internal/review/links.go:240-247 | The length of the longest run from a position. |
| ProseScanner.AgentPromptFence | internal/review/findings.go:165-178 | The shortest fence of three backticks or more longer than every run in the prompt. |
| ProseScanner.PromptIsOneBlock | internal/review/findings.go:165-178 | A prompt wrapped in such a fence is closed at its closing fence and nowhere inside, whatever stands around it. |
| ProseScanner.ScannerKeepsThePromptWhole | internal/review/links.go:145-188 | The scanner reads the wrapped prompt as one piece of code. |
| FencedBlocks.BlocksAgreeIff | internal/review/links.go:145-238 | For every text, the blocks among the scanner's code are those that section 4.5 of CommonMark reads line by line if and only if no opened backtick fence has a backtick after it, no span taken holds the start of a line that opens a block, and only padding follows a closing fence with text after it. |
| FencedBlocks.OpeningIff | internal/review/links.go:188-200 | The lines that open a block in section 4.5, character by character: at most three spaces, three or more backticks or tildes, and an info string without a backtick after backticks. |
| FencedBlocks.ClosingIff | internal/review/links.go:213-219 | And those that close one: at most three spaces, a run at least as long, and spaces, tabs or the carriage return of the line's ending. |
| FencedBlocks.SpanOverAFence | internal/review/links.go:168-182 | A span that runs over a fence: section 4.5 has a block from the fence to the end, the scanner a span and prose after it. |
| FencedBlocks.SpanOfThreeAtALineStart | internal/review/links.go:157-166 | A line that begins with a code span of three backticks is taken for a block to the text's end; section 4.5 has none. |
| FencedBlocks.OtherSpaceAfterAFence | internal/review/links.go:213-219 | After other white space on its line a fence closes for the scanner, and not by section 4.5. |
| Findings.Parse | internal/review/findings.go:418-493 | Kept findings come sorted, dropped ones in order with their reasons. |
| Findings.Judge | internal/review/findings.go:444-482 | One finding is kept, folded and cleared, or dropped with the first reason that applies. |
| Findings.ClearUncovered | internal/review/findings.go:473-481 | A range the diff does not wholly show is cleared with its replacement. |
| Findings.ParsePartitions | internal/review/findings.go:408-493 | Each finding of the answer is kept or dropped, once, and exactly for the reason reported. |
| Findings.EachFindingIsJudged | internal/review/findings.go:408-493 | Every finding of the answer is read (trimmed, redirected, stripped), and then either kept as it can be posted, with nothing against it, or dropped for the first reason that applies. |
| Findings.DroppedForTheFirstReason | internal/review/findings.go:444-464 | A finding is kept exactly when no reason applies to it, and dropped for one exactly when it applies and none before it does. |
| Findings.KeptFindingsAreAnchored | internal/review/findings.go:444-482 | Every line of a kept finding's range is anchored, and it has all it needs to be posted. |
| Findings.SortIsStable | internal/review/findings.go:484-490 | Sorted by severity, path and line, those of equal keys in their old order, none lost. |
| Findings.SeriousFindingsComeFirst | internal/review/findings.go:484-490 | Of what is kept, a blocking finding precedes an important one and that a nit; of equal severity, the path that is the earlier where they first differ, and then the lower line. |
| Findings.InsertionOnlyAdds | internal/review/findings.go:465-472 | For anchors read from a diff against the head, applying an insertion gives the same file with exactly the added lines after its line. |
| Findings.SuggestionIsOneBlockIff | internal/review/templates/inline.md.tmpl:9-12 | The suggestion of an insertion closes at its own last line if and only if the line it keeps closes no fence of three backticks. |
| Findings.ReplacementIsOneBlock | internal/review/templates/inline.md.tmpl:9-12 | The suggestion of a plain replacement always closes at its own last line. |
| Findings.StripFencesOf | internal/review/findings.go:515-527 | The loop drops the fence lines and trims newlines. |
| Findings.StrippedHasNoFenceLine | internal/review/findings.go:515-527 | What is left holds no fence line, however indented, and no line that was not there. |
| Findings.FenceLineIff | internal/review/findings.go:515-527 | The lines dropped are exactly those of white space and then three backticks. |
| Findings.PlainCodeIsKept | internal/review/findings.go:515-527 | Code without fences or newlines at its ends is left as it is. |
| Findings.FencedCodeIsUnwrapped | internal/review/findings.go:515-527 | Such code in a fenced block comes out of it as it went in. |
| Findings.CitedRulesOf | internal/review/findings.go:495-505 | The loop keeps what the recursive reading keeps. |
| Findings.CitedRulesAreTheGivenOnesCited | internal/review/findings.go:495-505 | Exactly the given rules that are cited, once each. |
| Findings.CitedRulesGrow | internal/review/findings.go:495-505 | In the order first cited. |
| PromptBudget.SplitFilesOf | internal/review/prompt.go:512-526 | The loop over positions cuts the sections that grouping lines cuts. |
| PromptBudget.SplitFilesKeepsTheDiff | internal/review/prompt.go:512-526 | The sections concatenate to the diff and a newline. |
| PromptBudget.SectionsStartAtHeaders | internal/review/prompt.go:517-523 | Every section but the first starts at a header line and takes its path from it. |
| PromptBudget.EveryHeaderStartsASection | internal/review/prompt.go:512-526 | A section for the first line, and one for every header line after it. |
| PromptBudget.HeaderPathIsTheNewOne | internal/review/prompt.go:528-534 | Of a header with two names the path is the second. |
| PromptBudget.FitDiff | internal/review/prompt.go:488-505 | The loop keeps and omits what the section-by-section reading does. |
| PromptBudget.FitDiffKeepsWholeSections | internal/review/prompt.go:488-505 | A subsequence of whole sections within the room, at least one omitted exactly when the diff is over it. |
| PromptBudget.FitIsGreedy | internal/review/prompt.go:488-505 | A section is kept exactly when it fits after those kept before it; the rest are omitted, both in order. |
| PromptBudget.NotesCount | internal/review/prompt.go:274-276 | Each note begins with the count of what was left out; there is one on the diff exactly when a file was, and it ends with their names. |
| PromptBudget.EachIsNamed | internal/review/prompt.go:274-276 | The note on the diff names every omitted file, in order. |
| PromptBudget.PriorSection | internal/review/prompt.go:334-369 | Whole findings that fit, with a count of the rest. |
| PromptBudget.PriorCut | internal/review/prompt.go:359-368 | The loop stops at the first finding that leaves no room for the note. |
| PromptBudget.PriorFits | internal/review/prompt.go:334-369 | The prior findings never exceed their room. |
| PromptBudget.Incrementals | internal/review/prompt.go:297-332 | The delta, or what stands for it, before the prior findings. |
| PromptBudget.IncrementalFits | internal/review/prompt.go:293-332 | A re-review's sections never exceed a non-negative room. |
| PromptBudget.DeltaIsShownOrStated | internal/review/prompt.go:305-329 | A delta that is not empty is shown, whole or by whole files with a count, or its omission stated, wherever that note fits. |
| PromptBudget.SectionsAreRereviewed | internal/review/prompt.go:297-369 | What a re-review's sections hold: the delta, its whole files that fit or the note that it was omitted, and the prior findings that fit with the count of the rest. |
| PromptBudget.RoomForAll | internal/review/prompt.go:297-369 | With room for all of it, a re-review shows the whole delta and every prior finding. |
| PromptBudget.WriteEntries | internal/review/prompt.go:406-452 | Entries in order up to the first that does not fit; a message within the budget stays within it, one over it gains nothing. |
| PromptBudget.WriteContext | internal/review/prompt.go:454-486 | The same with the header on the first chunk, and the exact count of those left out. |
| PromptBudget.Build | internal/review/prompt.go:259-282 | The message is its head, the kept diff, the note on omitted files and the re-review's sections in that order, then the dismissed findings, the references and the context, each up to the first entry that does not fit; with room for all of it, all is there. Only the head and the note can take it past its budget. |
| RunnerPrompt.Prompt.Trim | internal/runner/spec.go:205-225 | It caps each part and then halves the findings exactly as often as it must. |
| RunnerPrompt.TrimmedPromptFits | internal/runner/spec.go:201-225 | Whatever the encoding: the prompt then fits, cannot be encoded or carries no finding, its findings are the first of those it had, up to the cap where none had to go, and one halving fewer would not have done; eight always do. Body and issues are each cut to their limit. |
| RunnerPrompt.HalvingKeepsTheFirst | internal/runner/spec.go:205-225 | Halving keeps a prefix and touches nothing else. |
| PullRows.PullRequest.Upsert | internal/store/pulls.go:33-64 | A step of the row's history: it records exactly what the guard lets through and reports it. |
| PullRows.PullRequest.CountAutoReview | internal/store/pulls.go:107-120 | A step of the row's history that is reported exactly when it is the one that paused. |
| PullRows.PullRequest.Receive | internal/ingest/service.go:117-222 | A delivery is recorded, and starts a review exactly when it is to have one, is not stale, its head has none and the pull request is not paused; the row then holds what it said. |
| PullRows.PausesAreAnnouncedOnce | internal/store/pulls.go:97-120 | Between two resumptions, whatever else happens, a pull request is paused at most once, by a review that reports it or by a request. |
| PullRows.TheLastReviewAllowedAnnounces | internal/store/pulls.go:107-120 | From a resumption on, under a limit of n, the n-th automatic review reports the pause and no other does; a limit of zero or less is none. |
| PullRows.TimestampNeverDecreases | internal/store/pulls.go:46-83 | Whatever the events, a row stays, its timestamp never goes back, and its counters are untouched. |
| PullRows.UpsertsConverge | internal/store/pulls.go:46-63 | Timed reports of one row converge under any reordering and repetition. |
| PullRows.FatesConverge | internal/store/pulls.go:46-83 | State, merged and timestamp converge for any mix of timed reports and closes. |
| PullRows.EventsCommuteIff | internal/store/pulls.go:33-84 | Two events of any row commute exactly when one is older than the row, or their times differ and the newer is a report or the older brings no new content, or otherwise they write the same. |
| PullRows.ReportsCommuteIff | internal/store/pulls.go:37-63 | Two reports commute exactly when one is older than the row, they say the same, or both have times that differ. |
| PullRows.CloseAndFirstReportCommuteIff | internal/store/pulls.go:33-84 | From no row, a close and a report commute exactly when the close is older or changes nothing. |
| PullRows.FirstReportsCommuteIff | internal/store/pulls.go:46-63 | From no row, two reports commute exactly when they agree on the opening and say the same or have times that differ. |
| PullRows.UntimedEventsDoNotConverge | internal/store/pulls.go:37-57 | Of any untimed report and any current one, the last to come shows. |
| PullRows.CloseBeforeTheRowIsLost | internal/store/pulls.go:77-83 | Any close that is no older than the first report closes the pull request after it and leaves no trace before it. |
| PullRows.NewestFateShowsIff | internal/store/pulls.go:33-84 | From no row, timed events end with what the newest says became of the pull request if and only if one as new is the first report or came after it. |
| PullRows.OvertakingCloseIsLost | internal/store/pulls.go:77-83 | A close that comes before the first report, and is newer than all from there on, leaves the row older than itself. |
| PullRows.ContentDoesNotConvergeWithCloses | internal/store/pulls.go:77-83 | Any close makes any older report that arrives later pass by. |
| PullRows.NewestContentShowsIff | internal/store/pulls.go:33-84 | Over timed events the newest report's content shows in the end if and only if nothing newer was recorded before it or what it found said the same. |
| PullRows.NewContentShowsIff | internal/store/pulls.go:33-84 | Where that content is new, it shows if and only if neither the row nor a close before it is newer. |
| PullRows.NewerThanReportsIsAClose | internal/store/pulls.go:77-83 | Only the row as it stood, or a close, can be what is newer. |
| Leader.UnlocksOnlyAfterLead | cmd/kritika/main.go:474-479 | In every run a replica unlocks only once lead and every duty started in it have returned. |
| Leader.TwoLeadersOnlyAfterADrop | internal/store/leader.go:71-131 | Two replicas run lead at once only after the server dropped the session granted first. |
| Leader.DroppedLeaderIsCancelledInTime | internal/store/leader.go:103-140 | A replica whose session was dropped has lead cancelled within the interval and the ping's bound. |
| Leader.TwoLeadersForTheWholeBound | internal/store/leader.go:103-140 | That bound is met: a run in which a replica still leads, beside its successor, for all of it. |
| Leader.Database.TryLead | internal/store/leader.go:71-131 | Whatever wakes the loop, it takes only steps of the protocol, leads until the first wake that ends it, and ends without the lock and with nothing running. |
| Leader.Database.Round | internal/store/leader.go:107-123 | One wake-up of the select loop: the replica leads on exactly when lead has not returned, its context has not ended and the ping was answered in a session not dropped by then, and has stepped down otherwise. |
| Leader.Database.StepDown | internal/store/leader.go:111-121 | Cancelling waits for lead. |
| Leader.Database.WaitForLead | internal/store/leader.go:109-120 | It hears of lead's return only after its duties ended. |
| Masking.PassRemovesExactlyTheUnstarred | internal/adapter/record.go:67-72 | One pass removes a secret from every text if and only if it neither begins nor ends with a star nor holds three in a row. |
| Masking.EveryListMasksExactlyTheUnstarred | internal/adapter/record.go:63-72 | Every list that holds a secret masks it in every text if and only if the secret neither begins nor ends with a star nor holds three in a row. |
| Masking.PartsAreMaskedToo | internal/adapter/record.go:67-72 | A list masks any secret that one of its unstarred ones is part of. |
| Masking.NothingIsRecreated | internal/adapter/record.go:67-72 | No pass, of any secret, puts another such secret into a text that did not hold it. |
| Masking.MaskedTextHoldsNoSecret | internal/adapter/record.go:67-72 | The masked text holds none of them, whatever the order. |
| Masking.NoSecretInAnyForm | internal/adapter/record.go:41-89 | Nor any JSON-escaped form of them. |
| Masking.SecretsAreMaskedWhole | internal/adapter/record.go:63-66 | Longest first, a secret alone becomes three stars even when others are part of it. |
| Masking.SortIsLongestFirst | internal/adapter/record.go:63-66 | The list is strictly ordered, longest first, without repeats. |
| Masking.SecretsOf | internal/adapter/record.go:49-66 | The non-empty secrets and their escaped forms, sorted once. |
| Masking.MaskText | internal/adapter/record.go:67-72 | The loop masks them one after another. |
| Masking.MaskRun | internal/runner/spec.go:283-294 | The runner's two tokens, the longer first, an empty one skipped. |
| Windows.Window | internal/chunk/chunk.go:345-367 | Exactly the requested lines, clamped to the file, joined by newlines. |
| Windows.SkipLines | internal/chunk/chunk.go:353-360 | Moving past newlines moves past as many lines. |
| Windows.LineCount | internal/chunk/chunk.go:369-377 | The number of lines, a final newline ending the last one. |
| Windows.LinesRejoin | internal/chunk/chunk.go:369-377 | A file is its lines joined by newlines, with or without a last one, and there are as many as newlines and an unfinished line. |
| Windows.WindowsOf | internal/chunk/chunk.go:385-405 | The loop ends for every size and overlap with the windows the recursion cuts. |
| Windows.WindowsCoverIff | internal/chunk/chunk.go:385-405 | At most `size` lines each, within the file, covering every line if and only if the overlap is not negative or one window is enough. |
| Windows.NeighboursOverlap | internal/chunk/chunk.go:393-403 | Each window but the last is full and shares exactly the overlap with the next. |
| Windows.PiecesOfFile | internal/indexer/indexer.go:184-223 | The loop with its last line taken chooses the pieces that going declaration by declaration chooses. |
| Windows.OneOf | internal/indexer/indexer.go:193-220 | What one declaration gives: nothing, itself, nested ones, or windows. |
| Windows.NestedOf | internal/indexer/indexer.go:204-211 | The nested declarations taken, and the last line of them. |
| Windows.PiecesAreDisjoint | internal/indexer/indexer.go:184-223 | Pieces ascend and share no line but for windows over one oversized declaration, which stay inside it. |
| Windows.WholePiecesAscend | internal/indexer/indexer.go:197-201 | Whole declarations are ascending, line-disjoint, among the file's, and within the limit. |
| Windows.EachIsAnswered | internal/indexer/indexer.go:184-223 | Every declaration in turn gives nothing if it starts within lines already taken, itself if it is within the limit, else the nested ones that fit, leaving out none but those that start within what they took, or windows where there is none. |
| Windows.NoDeclarationsAreWindows | internal/indexer/indexer.go:187-190 | A file without declarations is its windows, line for line. |

## Left out

- AgentLoop.Do: requires limits under which every run ends, which `AgentLoop.EveryRunEndsIff` shows are all that it could be total on; step events, call counts and cost are not kept.
- TemplateSandbox.HardeningKeepsMeaning: the tree is rewritten as a value rather than edited in place, the render's deadline is not modelled, and `and` and `or` evaluate all their arguments.
- TemplateSandbox.ExecuteRendersAsWritten: Go's template engine is taken as modelled here, for the template as written and as hardened alike; its own rules for variables, fields and calls are not proved against its documentation.
- TemplateSandbox.LoopsAreBounded: bounds loop bodies; the time functions take is not modelled.
- Measure.SpanUnderestimatesIff: the estimates for `printf`, and what `seq` adds to its span, are not modelled.
- FencedBlocks.BlocksAgreeIff: section 4.5 alone; containers, indented code and HTML blocks, and a carriage return as a line ending of its own, are not modelled.
- UnifiedDiff.ReaderYieldsTheHunks: the paths of the `diff --git` line are not read, and so not modelled.
- IndexGeneration.ActiveGenerationIsARebuild: how files are cut goes by the commit's own configuration; the instance's ignore list is taken to be the same throughout, and an embedder's name stands for its dimension too.
- IndexGeneration.Tables.Index: reading the active generation and starting the run are one step, and so are a failed run's end and its clearing; what the runner stages is a parameter.
- Leases.Slots.WithLease: heartbeats come in any number at any times; the timer that spaces them is not modelled.
- PullRows.PullRequest.Receive: the filter, the queue's own deduplication and which heads have a review are parameters or left out.
- EventQueue.EveryLossIsCovered: payload decoding and the warning counter are not modelled.
- Leases.Backoff: the random draw is a parameter within the range the library gives.
- Leader.DroppedLeaderIsCancelledInTime: bounds when lead's context is cancelled; how long lead then takes to return is its own.
- PromptBudget.Build: description and issues are part of the head; the note that lists omitted files has no bound of its own.
- PullRows.UpsertsConverge: starts from a row with a timestamp; the time a pull request was opened is written once, by whichever event comes first.
- Windows.PiecesAreDisjoint: says nothing about which lines no piece covers; what of an oversized declaration lies between nested ones is dropped by design.
- Masking.NoSecretInAnyForm: how JSON escapes a text is a parameter.
- Findings.Parse: decoding, the summary's fields and the rewriting of references in prose are parameters or left out.
- The regular expressions of RedirectReferences, of description tags and of printf verbs.
- HTTP handlers, Kubernetes jobs, forge clients, sign-in, metrics, the dashboard, migrations and row-level security.
- Job queueing, unique keys and rescue: a job is taken to end before its run can count as stray.
- textcut, whose cut at a rune boundary is a parameter, and the validation of specs.
