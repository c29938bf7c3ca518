# A verified model of the NOJV core

NOJV is an online judge. This project models the parts of it whose correctness rests on an argument
rather than on a glance, and proves that argument in Dafny. Check it with `dafny verify dfyconfig.toml`.

Each part follows one pattern. The state is a value; every operation is a function on it, written in the
branches of the source; lemmas prove what all operations keep and what holds in every run. Where the
source changes things in place, a class or an array method with its loops is proved to do what the
function does.

**Markdown stripper** (`MarkdownBase`, `MarkdownDestination`, `MarkdownLinks`, `MarkdownTitles`,
`MarkdownStaleTitles`, `MarkdownLinkRule`, `MarkdownCodeSpans`, `MarkdownCodeRule`, `MarkdownHtml`,
`MarkdownHtmlRule`). A paragraph is a sequence of UTF-16 code units with one flag per unit. Linear-time
devices are proved to compute what naive scans compute: parenthesis tables, caching finders, the
watermark painter, the stack of backtick openers, the memories of the HTML pass. One device does not
always: the finder for the next non-whitespace character is asked at two places per link, so after a
failed link its memory can lie beyond the next question. `MarkdownTitles` says exactly when that
matters, for one tail (`TailExactly`) and for the whole pass (`LinksNaiveExactly`), gives a guard that
can be read off the line (`LinksNaiveWhenGuarded`); `MarkdownStaleTitles` shows three lines on which the
pass misses a link or invents one. The three modules named after rules say what the links, the code
spans and the HTML pieces of a line are without any scan, and prove that the passes find exactly those,
links with that one exception. The model follows the code; no conformance to CommonMark is claimed.

**Interactive frame channel** (`FrameCodec`, `InteractiveChannel`, `InteractiveStream`,
`InteractiveLaws`, `FrameChannel`). Encoder, incremental parser, demultiplexer with its bounded
read-ahead and the `converse` pump, up to the end-to-end statement that in every case of a channel one
child is offered what the other wrote, and to when a conversation is over and when the channel fails.

**Lifecycle timers** (`LifecycleDecision`, `LifecycleReconciler`, `LifecycleProtocol`). The decision
table, the loop by itself, and any number of reconcilers interleaving on stale observations. Two
reconcilers that want runs can terminate each other's in one case only, and then some interleaving does
(`MutualKillsExactly`): equal revision, different fingerprint, not two incarnations of one entity.

**Roster** (`RosterGrades`, `Roster`). Binding the memberships kept for a username: merging two
memberships, their grades and the audit trail.

**Durable judging** (`JudgeStage`, `DurableJudge`). The stage activities with every outside call able to
fail before or after taking effect, and the workflow as a state machine over all such outcomes. Since
the third failure blocks, the doubling recovery delay is only ever 5 or 10 seconds. Saving a stage
without retaining the lease already clears it; the release that follows is fenced by the token and by
the workflow the row belongs to.

**Slot allocator** (`JudgeSlots`), **Temporal client** (`TemporalClient`). State machines over calls,
samples, signals, aborts and promise reactions.

**Exam sessions** (`ExamSession`). Transactions split into lock, read and commit steps. The instructor's
release takes no user lock, so its read and its write are separate steps. One active session per user is
proved from the lock alone, without the database's partial unique index. A submitted participation is
final; the submitted mark on the session row is final exactly unless the participation is disqualified.

**Step-up proofs** (`StepUp`). The scripts as atomic operations on an expiring key space, with the check
of the generation as a step of its own. Lives are asked for in whole seconds, rounded to the nearest as
Redis answers `TTL`, so rebinding can lengthen a proof by up to half a second;
`RebindingLengthensExactly` says when.

**Durable work** (`DurableWork`). One batch, one execution, and executions continuing each other. The
total that a drain returns covers its last execution only.

**Small algorithms** (`Descendants`, `ProblemLetter`). The walk over a process tree and the problem
labels. `Basics` and `JsText` hold what several modules share.

## Model

| member | source | states |
|---|---|---|
| `MarkdownBase.FillRanges` | packages/core/src/markdown-text.ts:259-268 | With range ends that never decrease, painting from the last range to the first below a watermark paints exactly the union of the ranges and changes nothing else. |
| `MarkdownBase.FillArray` | packages/core/src/markdown-text.ts:266 | Writes the flag exactly on the half-open range, cut off at the end of the mask. |
| `MarkdownDestination.Find` | packages/core/src/markdown-text.ts:237-257 | The caching finder, as a loop over the mask with its two memory cells, answers and remembers what its specification says. |
| `MarkdownDestination.HonestAnswer` | packages/core/src/markdown-text.ts:237-257 | A finder asked at or after all its earlier questions answers exactly the first kept match at or after the question, and its memory stays right for later questions. |
| `MarkdownDestination.HonestLater` | packages/core/src/markdown-text.ts:242-256 | The memory of a finder stays right when the cursor moves on and the mask is rewritten behind it. |
| `MarkdownDestination.FinderExactly` | packages/core/src/markdown-text.ts:242-256 | For questions in any order: the finder agrees with the plain search if and only if no other kept match lies between the question and the remembered answer (or the end, once exhausted). |
| `MarkdownDestination.ClosersAreUnmatched` | packages/core/src/markdown-text.ts:345-353 | The stack of the right-to-left pass is the list of unmatched closing parentheses: its entry at a depth is where a left-to-right count from that depth first meets an unmatched one. |
| `MarkdownDestination.BareDestinationIsDepthScan` | packages/core/src/markdown-text.ts:389-395 | For every line, mask and position, with the tables built from an older mask that agrees from there on: the answer from closer table, opener table and next whitespace equals one left-to-right depth scan of the current mask. |
| `MarkdownDestination.AngleScanIsNearest` | packages/core/src/markdown-text.ts:384-388 | Comparing the next `>` with the next `<` or line break is the same as reading to the first of them. |
| `MarkdownDestination.LabelScanIsNearest` | packages/core/src/markdown-text.ts:409-414 | Comparing the next `]` with the next `[` is the same as reading to the first of them. |
| `MarkdownLinks.BuildCloserTable` | packages/core/src/markdown-text.ts:345-353 | The array loop leaves, at each position, the nearest unmatched closing parenthesis of the suffix, or -1. |
| `MarkdownLinks.BuildOpenTable` | packages/core/src/markdown-text.ts:354-361 | The array loop leaves, at each position, the innermost opening parenthesis still open before it, or -1. |
| `MarkdownLinks.LinkScanner.LinkDestinationEnd` | packages/core/src/markdown-text.ts:377-407 | Given honest finders, the scanner returns what the naive scans return for the angle and bare branches followed by the title tail with its remembered state, and its finders stay honest for later positions. |
| `MarkdownLinks.LinkScanner.ReferenceLabelEnd` | packages/core/src/markdown-text.ts:409-414 | Given honest finders, returns the place of a kept `]` with no kept bracket before it in the label, or -1 exactly when there is no such place; an empty label ends at once. |
| `MarkdownLinks.LabelExactly` | packages/core/src/markdown-text.ts:409-414 | The reading of a label ends at a place if and only if a kept `]` stands there and no kept bracket lies between. |
| `MarkdownLinks.LinksNest` | packages/core/src/markdown-text.ts:416-454 | Every recognised link has kept brackets around its text and a closer of its own kind, and any two links are disjoint or one lies inside the text of the other. |
| `MarkdownLinks.NoPairNoLink` | packages/core/src/markdown-text.ts:417 | The early return is harmless: without `](` or `][` the loop recognises nothing, whatever the brackets. |
| `MarkdownLinks.ImageRangesFit` | packages/core/src/markdown-text.ts:445-453 | The image ranges collected by the loop have ends that never decrease, as the painter needs. |
| `MarkdownLinks.MarkLinks` | packages/core/src/markdown-text.ts:416-454 | The whole pass: a position ends as DROP if some recognised link removes it and keeps its flag otherwise, although text links rewrite the mask while the scan goes on; which links are recognised is said by the rule below. |
| `MarkdownLinkRule.DestinationMeans` | packages/core/src/markdown-text.ts:377-407 | A destination, read afresh, ends where its definition says: bare text with balanced parentheses and no blank, or text in angle brackets, then blanks, an optional quoted title, and the closing parenthesis. |
| `MarkdownLinkRule.NaiveLinksExactly` | packages/core/src/markdown-text.ts:416-454 | With fresh searches a link is recognised if and only if its `]` is kept and in no tail of another link, its `[` is the innermost one open there, it is an image exactly behind a kept `!`, and a destination or label starts behind it that ends at its end. |
| `MarkdownLinkRule.LinksExactly` | packages/core/src/markdown-text.ts:416-454 | The same for the pass itself on every line on which no title tail is misled. |
| `MarkdownLinkRule.UntitledLinksExactly` | packages/core/src/markdown-text.ts:416-454 | On every line whatsoever the brackets of each link are those of the rule, and where no title tail is read, behind every label in particular, a link is recognised if and only if the rule has one. |
| `MarkdownLinkRule.RuleDetermines` | packages/core/src/markdown-text.ts:416-454 | Two lists of links that obey the rule have the same members, so the rule says what the links of a line are. |
| `MarkdownTitles.MemoryStaysSound` | packages/core/src/markdown-text.ts:237-257 | In every state of the pass the two quote finders are right wherever they can be asked next, and a character that the non-whitespace finder remembers at or ahead of the cursor is kept, not blank and not a parenthesis. |
| `MarkdownTitles.TailExactly` | packages/core/src/markdown-text.ts:397-406 | In every such state the title tail equals the reading with fresh searches if and only if its first question is answered with the first kept non-whitespace character, or both readings reject. |
| `MarkdownTitles.DestinationExactly` | packages/core/src/markdown-text.ts:377-407 | The same for a whole destination: it can differ from the fresh reading in the title tail only, and exactly then. |
| `MarkdownTitles.LinksNaiveExactly` | packages/core/src/markdown-text.ts:416-454 | For every line and mask: the pass recognises the links of a pass with fresh searches if and only if no title tail on the way begins before a character that an earlier tail has looked past, other than to be rejected either way. |
| `MarkdownTitles.LinksNaiveWhenGuarded` | packages/core/src/markdown-text.ts:416-454 | The two passes recognise the same links on every line where no failed title tail looks past a later `](`, which can be read off the line. |
| `MarkdownTitles.TailWhenHonest` | packages/core/src/markdown-text.ts:397-406 | Whatever was asked before: when its three finders are honest at the position, the title tail is the naive one. |
| `MarkdownStaleTitles.StaleTitleHidesLink` | packages/core/src/markdown-text.ts:416-454 | A line, run through the whole pass, on which the memory of a failed title makes it miss the one link of the fresh reading. |
| `MarkdownStaleTitles.StaleTitleInventsLink` | packages/core/src/markdown-text.ts:416-454 | A line on which the same memory makes the pass recognise a link that the fresh reading does not have. |
| `MarkdownStaleTitles.StaleAngleHidesLink` | packages/core/src/markdown-text.ts:416-454 | A line without any title on which a failed angle-bracketed destination makes the pass miss a link inside the brackets. |
| `MarkdownCodeSpans.CodeSpansCorrect` | packages/core/src/markdown-text.ts:276-309 | Spans join a run of backticks to the next later run of the same length; any two spans are nested or disjoint; and a run left out of every span has no later run of its length. |
| `MarkdownCodeRule.CodeSpansExactly` | packages/core/src/markdown-text.ts:276-309 | Exactly which runs are delimiters and which pairs are spans: a run is a whole stretch of kept backticks, unless a backslash escapes it and no opener waits for its length, when its first backtick is left out; a span joins an opener that waits to the next delimiter of its length. |
| `MarkdownCodeSpans.LiveOrdered` | packages/core/src/markdown-text.ts:277-307 | The openers on the stack have strictly increasing positions and pairwise different lengths. |
| `MarkdownCodeSpans.LookupIsSearch` | packages/core/src/markdown-text.ts:288-302 | The map from length to position together with the stack of lengths answers as a search of the live openers does. |
| `MarkdownCodeSpans.Unwind` | packages/core/src/markdown-text.ts:300-305 | Popping the stack of lengths until an earlier opener is on top leaves exactly the openers before the one just closed. |
| `MarkdownCodeSpans.MarkCodeSpans` | packages/core/src/markdown-text.ts:276-314 | The whole pass: DROP exactly on the backticks of paired runs, LITERAL exactly on the rest of what the spans contain, every other flag unchanged. |
| `MarkdownHtml.IndexOfUnmasked` | packages/core/src/markdown-text.ts:223-233 | Skipping masked stretches between substring searches finds the first occurrence whose first character is kept, or -1 when there is none. |
| `MarkdownHtml.TagEnd` | packages/core/src/markdown-text.ts:493-536 | A recognised tag ends at a `>` that is reached through kept characters only. |
| `MarkdownHtml.TagEndExactly` | packages/core/src/markdown-text.ts:493-536 | The scanner accepts exactly the texts of the shape: a slash, a name, blanks and `>`; or a name, attributes each behind a blank with an optional quoted or unquoted value, and `>` or `/>`; and it ends each where the shape ends. |
| `MarkdownHtml.HtmlTagEnd` | packages/core/src/markdown-text.ts:493-536 | The scanning loops compute that end. |
| `MarkdownHtml.HtmlMarked` | packages/core/src/markdown-text.ts:538-585 | The pass from a position on leaves everything to the left alone and never makes a masked position kept. |
| `MarkdownHtmlRule.ActionMeans` | packages/core/src/markdown-text.ts:538-585 | At each position the pass acts if and only if a comment with its first closing, an autolink up to the first kept `>`, or a tag starts there, in this order of precedence. |
| `MarkdownHtmlRule.HtmlExactly` | packages/core/src/markdown-text.ts:538-585 | There is one list of such pieces, none starting inside another or behind a place where the pass gives up; an autolink drops its two brackets and is LITERAL inside, a comment or tag becomes SPACE, and every other character keeps its flag. |
| `MarkdownHtml.MarkHtml` | packages/core/src/markdown-text.ts:538-585 | With its remembered `>` and its comment-exhausted flag the pass leaves exactly the mask that searching afresh at every `<` would leave, for every line and mask. |
| `FrameCodec.ParseEncoded` | apps/sandbox-runner/src/judges/interactive-channel.ts:19-29 | Parsing the encoding of a well-formed frame, followed by any bytes, returns that frame and leaves those bytes. |
| `FrameCodec.ParseStable` | apps/sandbox-runner/src/judges/interactive-channel.ts:122-137 | Bytes that arrive later never change a verdict: malformed stays malformed, a complete frame stays the same frame. |
| `FrameCodec.ParsePrefix` | apps/sandbox-runner/src/judges/interactive-channel.ts:122-134 | A proper prefix of an encoded frame always asks for more. |
| `FrameCodec.HeaderLayout` | apps/sandbox-runner/src/judges/interactive-channel.ts:19-29 | On the wire: one byte of type, four of index and four of payload length, each most significant first, then the payload. |
| `InteractiveStream.ChunkingIrrelevant` | apps/sandbox-runner/src/judges/interactive-channel.ts:119-139 | For any bytes, well-formed or not, and any way to cut them: receiving the chunks one by one has the effect of receiving them all at once. |
| `InteractiveStream.FramesComeOut` | apps/sandbox-runner/src/judges/interactive-channel.ts:119-139 | For every list of well-formed frames and every cut of their encoding into chunks exactly those frames are dispatched, in order. |
| `InteractiveStream.PiecesOffer` | apps/sandbox-runner/src/judges/interactive-channel.ts:209-225 | The pieces that a chunk is sent in carry exactly the bytes of the chunk; all but the last hold 64 KiB. |
| `InteractiveStream.TalkArrives` | apps/sandbox-runner/src/judges/interactive-channel.ts:174-247 | End to end on a wire that may carry any other frames as well, wherever reading stands and whatever was read ahead, under any re-chunking and any interleaving with subscribing, stream end and exit: unless the channel fails, a subscribed or finished handler has been offered exactly the bytes the other child wrote, in order, then end of stream. |
| `InteractiveStream.EveryCaseArrives` | apps/sandbox-runner/src/judges/interactive-stage.ts:49-85 | A fresh channel whose other side announces itself and then holds the conversations of all its cases: each case is offered exactly what the other child of that case wrote, unless the channel fails. |
| `InteractiveStream.ReadAheadExactly` | apps/sandbox-runner/src/judges/interactive-channel.ts:156-158 | With nobody subscribed, the frames that have arrived whole fail the channel if and only if their payload takes the queue over its bound. |
| `InteractiveLaws.DispatchFailsExactly` | apps/sandbox-runner/src/judges/interactive-channel.ts:141-163 | A frame fails the channel if and only if it announces the peer again, comes before that, or is read ahead beyond the bound. |
| `InteractiveLaws.KeptProtocolNeverFails` | apps/sandbox-runner/src/judges/interactive-channel.ts:119-163 | If the peer announces itself once and first, and its well-formed frames fit in the queue, no chunking and no order of events fails the channel, short of a failing stream. |
| `InteractiveLaws.ConversationLaw` | apps/sandbox-runner/src/judges/interactive-channel.ts:174-247 | Every event but a subscription: an index is finished exactly when its conversation has seen its own end, the peer's end and the exit of the child; no other index is finished, and arriving bytes bring only the peer's end. |
| `InteractiveLaws.SubscribeLaw` | apps/sandbox-runner/src/judges/interactive-channel.ts:102-110 | A conversation starts with what was read ahead for it handed over, and with the peer's end exactly if that was among it; other queues stay. |
| `InteractiveLaws.FinishLaw` | apps/sandbox-runner/src/judges/interactive-channel.ts:112-117 | Finishing any index drops its queue and handler, keeps the byte count equal to the queues, and leaves other indices alone. |
| `InteractiveChannel.RunKeeps` | apps/sandbox-runner/src/judges/interactive-channel.ts:102-163 | In every run: until failure `queuedBytes` is the total payload of all queues and within 16 MiB, no finished index has a queue, and each handler has had its accepted frames in order up to those still queued. |
| `InteractiveChannel.HandlerHasAll` | apps/sandbox-runner/src/judges/interactive-channel.ts:102-163 | While its handler is subscribed, and once it has finished, an index has had every frame accepted for it exactly once and in order. |
| `InteractiveChannel.ReplayKeeps` | apps/sandbox-runner/src/judges/interactive-channel.ts:102-110 | Replaying the queue at subscription hands over exactly the queued frames and keeps the accounting. |
| `FrameChannel.FrameChannel.ReceiveChunk` | apps/sandbox-runner/src/judges/interactive-channel.ts:119-139 | The parsing loop on the object has the effect of the value-level parser. |
| `FrameChannel.FrameChannel.DispatchFrame` | apps/sandbox-runner/src/judges/interactive-channel.ts:141-163 | Dispatching on the object has the value-level effect and keeps the invariant. |
| `FrameChannel.FrameChannel.SubscribeTo` | apps/sandbox-runner/src/judges/interactive-channel.ts:102-110 | Subscribing on the object replays the queue and keeps the invariant. |
| `FrameChannel.FrameChannel.FinishIndex` | apps/sandbox-runner/src/judges/interactive-channel.ts:112-117 | Finishing an index drops its queue, its bytes and its handler, and keeps the invariant. |
| `FrameChannel.FrameChannel.SendOutput` | apps/sandbox-runner/src/judges/interactive-channel.ts:209-225 | The data listener writes exactly the encoded pieces of the chunk. |
| `FrameChannel.FrameChannel.EndOwn` | apps/sandbox-runner/src/judges/interactive-channel.ts:199-204 | Only the first report that the output ended sends the end-of-stream frame, after which the conversation may settle. |
| `LifecycleDecision.KillsExactly` | packages/temporal/src/lifecycle-reconciliation.ts:32-72 | A decision terminates if and only if the observed run is RUNNING and is a target of the desired identity, which a newer run never is. |
| `LifecycleDecision.NewerOrders` | packages/temporal/src/lifecycle-reconciliation.ts:20-50 | Among the identities of one entity, newer by creation time and then revision is irreflexive and transitive and ties only when both agree. |
| `LifecycleDecision.MutualTerminationExactly` | packages/temporal/src/lifecycle-reconciliation.ts:40-71 | Two reconcilers that both want a run target each other if and only if their revisions are equal, their fingerprints differ and they are not two incarnations of one entity. |
| `LifecycleReconciler.DecidesExactly` | packages/temporal/src/lifecycle-reconciliation.ts:32-72 | Each decision has its exact cause: keep if and only if what the mode asks for holds already; terminate, and replace unless cancelling, if and only if the latest run is RUNNING and targeted; start if and only if the goal does not hold and none is RUNNING. |
| `LifecycleReconciler.StartsAfterTerminate` | packages/temporal/src/lifecycle-reconciliation.ts:46-71 | After terminating in order to start, the next decision on the terminated run is to start. |
| `LifecycleReconciler.Reconcile` | packages/temporal/src/dispatch.ts:197-237 | Undisturbed, the loop returns within three attempts from every state, and then its goal holds. Where it held before, nothing is changed in one attempt; otherwise the latest run has ended, the others are untouched, and unless cancelling exactly one run with the desired identity is added. |
| `LifecycleProtocol.AtMostOneRunning` | packages/temporal/src/dispatch.ts:205-236 | With any number of reconcilers interleaving on stale observations at most one run is RUNNING. |
| `LifecycleProtocol.NoNewerKilled` | packages/temporal/src/dispatch.ts:183-219 | No reconciler ever terminates a run newer than its own desired identity. |
| `LifecycleProtocol.NoMutualKills` | packages/temporal/src/dispatch.ts:183-219 | Two reconcilers that want runs have terminated runs of each other only if their identities tie (equal revision, other fingerprint, same incarnation). |
| `LifecycleProtocol.MutualKillsExactly` | packages/temporal/src/dispatch.ts:205-236 | For any two identities of reconcilers that want runs: some interleaving makes them terminate each other's runs if and only if the identities tie. |
| `LifecycleProtocol.StopsOnlyByTarget` | packages/temporal/src/dispatch.ts:205-234 | A RUNNING run stops only by ending itself or by a reconciler that targets it; a start never displaces it. |
| `LifecycleProtocol.NewestSurvives` | packages/temporal/src/dispatch.ts:205-236 | A run that no present or arriving reconciler targets stays RUNNING through every interleaving until it ends by itself. |
| `RosterGrades.MergeConserves` | packages/application/src/course/roster.ts:40-81 | Every slot graded on either side is graded on the survivor, the survivor's own grade wins, other grades are unchanged and no two grades share a slot. |
| `RosterGrades.AuditsConserved` | packages/application/src/course/roster.ts:23-79 | No audit row is lost or altered in what it recorded; a row is repointed exactly if its membership was dissolved or its grade deleted, then to the survivor and to the grade of the same slot there, with the original membership kept as source. |
| `RosterGrades.ConflictsRecorded` | packages/application/src/course/roster.ts:59-79 | Each grade given up, and nothing else, is recorded in one new row: its old value, the value that stands in the same slot, both memberships, the user and the action. |
| `RosterGrades.MergesCompose` | packages/application/src/course/roster.ts:145-177 | Merging course after course has the effect of making all merges at once, with the conflict rows one after the other. |
| `RosterGrades.GradeTable.MergeGrades` | packages/application/src/course/roster.ts:17-123 | On one grade table with its audit log, in whatever order the rows are listed: the merge is the specified one, with exactly one new audit row per conflict holding both values. |
| `RosterGrades.GradeTable.ResolveConflict` | packages/application/src/course/roster.ts:59-80 | One conflict adds one audit row with the old and the surviving value, hands the history over and deletes the losing grade. |
| `Roster.SurvivorKeepsAuthority` | packages/application/src/course/roster.ts:156-181 | A protected teacher or owner keeps role, status and removal date. Anyone else gets the role of the pending row if the school vouches for them and keeps their own otherwise, is removed if and only if either side was, and has the other side's removal date exactly when only that side was removed. Course and user are right. |
| `Roster.BoundMeans` | packages/application/src/course/roster.ts:145-181 | After binding, each selected row is the user's, unchanged but for that where they had no membership in its course; where they had one, the right one of the two survives as that rule says and the other is gone. |
| `Roster.OthersUntouched` | packages/application/src/course/roster.ts:125-207 | No membership is added, and those neither selected nor met by a selected row are as before. |
| `Roster.MergesApart` | packages/application/src/course/roster.ts:145-153 | The merges of different pending rows never share a membership. |
| `Roster.BoundIsValid` | packages/application/src/course/roster.ts:125-207 | After binding no membership in scope waits under the username, the user has a membership in each of those courses, and the uniqueness constraints still hold. |
| `Roster.StillHeld` | packages/application/src/course/roster.ts:145-177 | After binding every grade belongs to an existing membership and every audit row points at an existing grade or at none. |
| `Roster.RosterDb.BindRow` | packages/application/src/course/roster.ts:145-181 | One turn of the loop binds the row as that rule says, and makes at most one merge of grades, unrelated to the earlier ones. |
| `Roster.RosterDb.Bind` | packages/application/src/course/roster.ts:125-207 | The whole transaction, on the tables before and after: every selected row is bound by the rule of merging, every membership out of its reach is unchanged, both grade tables end as if all merges were made at once, nothing stays selected, and the count returned is the number of rows. |
| `Roster.RosterDb.BindTwice` | packages/application/src/course/roster.ts:125-207 | A second binding of the same claim returns 0 and changes no table. |
| `JudgeStage.JudgeRun.ReleaseLease` | apps/worker/src/activities/judge-execution.ts:158-162 | Releasing is called only when the lease has no resources left, and clears the lease exactly if it is still that one and the row still belongs to the workflow. |
| `JudgeStage.JudgeRun.SaveStage` | packages/application/src/submission/judge-execution.ts:182-222 | Saving is fenced by lease and stage count; when it takes effect the one stage is appended and the row is finalizing if terminal and queued otherwise, and the lease goes only when it is not to be retained; otherwise the row is unchanged. |
| `JudgeStage.JudgeRun.TryStage` | apps/worker/src/activities/judge-execution.ts:81-133 | On every path of the try block: a stage is saved only in its turn and without a system error; the result is finished if and only if it was the last stage or has a compilation error, with the row finalizing, and saved with the row queued otherwise; a confirmed cleanup means no resources, and a returned result hands over the cleanup with the lease held or has confirmed it. |
| `JudgeStage.JudgeRun.CatchStage` | apps/worker/src/activities/judge-execution.ts:134-157 | After the catch block a confirmed cleanup still means that no resources of the lease remain, and it is confirmed whenever the deferred cleanup works or the error says that nothing was created. |
| `JudgeStage.JudgeRun.ExecuteJudgeStage` | apps/worker/src/activities/judge-execution.ts:57-163 | On every path: obsolete exactly for a row that is gone, cancelled or completed; finished exactly for the last stage or a compilation error, with one stage saved in its turn unless none was left; no lease is released twice or while resources remain, and one whose resources are certainly gone is given up; a result carries a cleanup record exactly with the lease still held. |
| `JudgeStage.JudgeRun.CleanupJudgeStage` | apps/worker/src/activities/judge-execution.ts:165-186 | The deferred cleanup releases only its own lease, only after cleaning, and only on a row that belongs to the workflow; when it returns, the resources are gone, and the lease too if the row belongs to the workflow. |
| `JudgeStage.JudgeRun.ReconcileJudgeStage` | apps/worker/src/activities/judge-execution.ts:188-208 | An unexpired lease or one of another workflow's row is never released; answering false changes nothing; answering true means that this lease no longer stands in the way, and is the answer whenever it has expired, nothing is left and the release works. |
| `JudgeStage.Combine` | apps/worker/src/activities/judge-execution.ts:214-227 | The combined result is the first stage with a compilation error, if any; otherwise all testcase results and raw runs in order and the other fields as last set. |
| `DurableJudge.RecoveryDelays` | apps/worker/src/workflows/durable-judge.ts:46-64 | After an error the delay is 30 s exactly for missing capacity, 15 min exactly when blocked, and otherwise 5 s or 10 s for the first or second failure: the doubling never gets further because the third failure blocks; the state recorded matches the delay unless the run is finalizing. |
| `DurableJudge.RecoveryDelayDoubles` | packages/core/src/judge-execution.ts:21-23 | The doubling delay by itself starts at 5 s and doubles with each attempt until it stays at its cap of 5 min. |
| `DurableJudge.NoCleanupAtHead` | apps/worker/src/workflows/durable-judge.ts:75-178 | In every run, at every loop head, no deferred cleanup of an earlier iteration is in flight. |
| `DurableJudge.StageOnlyWhenCleared` | apps/worker/src/workflows/durable-judge.ts:81-107 | A stage executes only in an iteration that saw no lease or got a safe reconcile, and then no lease is held and no sandbox resources exist. |
| `DurableJudge.FinishOnlyWhenClean` | apps/worker/src/workflows/durable-judge.ts:126-143 | The execution is finished only after results and all their effects succeeded in this run and the deferred cleanup, if any, fulfilled. |
| `DurableJudge.ResultsOnlyAfterAllStages` | apps/worker/src/workflows/durable-judge.ts:81-143 | In every run results go out, and the row is finalizing, only when every stage is saved or the last saved one has a compilation error; no stage is ever saved behind a compilation error or beyond the last. |
| `DurableJudge.PublishedOnce` | apps/worker/src/workflows/durable-judge.ts:126-141 | Results are remembered as published exactly when they went out beside a deferred cleanup, and then are not published again in this run. |
| `DurableJudge.FailuresCount` | apps/worker/src/workflows/durable-judge.ts:73-178 | Every step: the steps that go to record a recovery, and no others, raise the count of failures, by one, and never for a stage that did not start; it goes back only to zero, at a loop head, and does so when a stage is saved with nothing left to clean up. |
| `DurableJudge.ReturnsExactly` | apps/worker/src/workflows/durable-judge.ts:75-143 | Every step: the workflow ends exactly when the execution has just been finished, when the row was seen cancelled or completed once its lease was checked, or when a stage found the row gone. |
| `DurableJudge.ResourcesUnderLease` | apps/worker/src/workflows/durable-judge.ts:75-178 | In every run sandbox resources exist only while the row still holds a lease to find them by. |
| `DurableJudge.StageIsEvent` | apps/worker/src/activities/judge-execution.ts:57-163 | Every path of the stage activity is one of the events of the workflow model, with its effect on state, saved stages, lease, resources and tokens drawn. |
| `DurableJudge.CleanupIsEvent` | apps/worker/src/activities/judge-execution.ts:165-186 | Every path of the deferred cleanup is one of the events of the workflow model, with its effect. |
| `DurableJudge.ReconcileIsEvent` | apps/worker/src/activities/judge-execution.ts:188-208 | Every path of reconciling is one of the events of the workflow model, with its effect. |
| `JudgeSlots.SupplierSafe` | apps/worker/src/judge-slot-supplier.ts:91-201 | In every run min <= budget <= max and issued <= max, requests wait only while issued >= budget (no lost wake-up), and waiting requests are granted in the order of arrival. |
| `JudgeSlots.GrowsEverySecondSample` | apps/worker/src/judge-slot-supplier.ts:115-135 | Over any stretch of n samples the budget grows at most every second time. |
| `JudgeSlots.NoGrowthAfterSignal` | apps/worker/src/judge-slot-supplier.ts:118-135 | After a capacity signal the budget does not grow during the next 12 samples, or 24 for a wall-clock timeout. |
| `JudgeSlots.SampleLaw` | apps/worker/src/judge-slot-supplier.ts:115-135 | Under strain a sample caps the budget at one below the slots in use, but not below the minimum; otherwise it adds one slot if and only if none of the budget is left, the maximum is not reached, no pause is on and the sample before did not grow it. |
| `JudgeSlots.SignalLaw` | apps/worker/src/judge-slot-supplier.ts:147-153 | A capacity signal caps the budget in the same way and extends the pause to 12 samples, or 24 for a wall-clock timeout, never shortening it. |
| `JudgeSlots.PermitsConserved` | apps/worker/src/judge-slot-supplier.ts:162-201 | Over every run the permits out are those granted less those released, and the slots in use are those marked less those released with an activity. |
| `JudgeSlots.NodeLoadSlotSupplier.AdjustTo` | apps/worker/src/judge-slot-supplier.ts:115-145 | Adjusting the object has the specified effect and keeps the invariant. |
| `JudgeSlots.NodeLoadSlotSupplier.ReserveSlot` | apps/worker/src/judge-slot-supplier.ts:162-181 | A request is granted at once if and only if it is not aborted and a slot is free; an aborted one changes nothing, and any other waits behind the rest. |
| `JudgeSlots.NodeLoadSlotSupplier.OnAbort` | apps/worker/src/judge-slot-supplier.ts:174-177 | Aborting a waiting request removes exactly that request. |
| `JudgeSlots.NodeLoadSlotSupplier.ReleaseSlot` | apps/worker/src/judge-slot-supplier.ts:193-201 | Releasing frees a slot and wakes waiters while slots are free, keeping the invariant. |
| `JudgeSlots.NodeLoadSlotSupplier.SignalCapacity` | apps/worker/src/judge-slot-supplier.ts:147-160 | A capacity signal caps the budget below the slots in use and starts the pause, keeping the invariant. |
| `JudgeSlots.NodeLoadSlotSupplier.TryReserveSlot` | apps/worker/src/judge-slot-supplier.ts:183-187 | A slot is granted if and only if one is free and nobody waits; otherwise nothing changes. |
| `JudgeSlots.NodeLoadSlotSupplier.MarkSlotUsed` | apps/worker/src/judge-slot-supplier.ts:189-191 | Counts a slot as used, keeping the invariant. |
| `TemporalClient.OneConnection` | packages/temporal/src/client.ts:31-107 | In every interleaving all connection attempts but the latest have been refused or closed: at most one attempt or live connection exists. |
| `TemporalClient.ClosedForGood` | packages/temporal/src/client.ts:95-107 | After the first close every caller is turned away and no client is constructed. |
| `TemporalClient.NeverReopens` | packages/temporal/src/client.ts:109-148 | After the first close the state is closing or closed through every later event. |
| `TemporalClient.ClosedExactlyOnce` | packages/temporal/src/client.ts:52-148 | No connection is closed twice; once nothing is pending, a connection whose client could not be made or that a close caught up with has been closed exactly once, and a requested close has ended in closed. |
| `TemporalClient.StateTells` | packages/temporal/src/client.ts:31-93 | Once nothing is pending and nobody asked for a close, the last attempt alone says what the state is: ready if it made its client, closed if the client failed and closing its connection failed too, and idle otherwise, so that the next caller tries again. |
| `TemporalClient.AnswerLaw` | packages/temporal/src/client.ts:95-107 | A caller is given a client only of an open connection, waits only for the last attempt, and is turned away exactly when the client is closing or closed or its options are bad; only a caller who finds it idle starts an attempt. |
| `TemporalClient.ClientModule.GetTemporalClient` | packages/temporal/src/client.ts:95-107 | A call answers from the current state and starts an attempt only when idle. |
| `TemporalClient.ClientModule.CloseTemporalClient` | packages/temporal/src/client.ts:109-148 | A close moves to closing or closed and waits for whatever is still under way. |
| `TemporalClient.ClientModule.OnConnection` | packages/temporal/src/client.ts:52-83 | The connection callbacks act only while their own attempt is still the current state. |
| `TemporalClient.ClientModule.OnClosed` | packages/temporal/src/client.ts:64-76 | A settled clean-up leads back to idle or to closed only while its attempt is still the state; a settled close leads to closed. |
| `ExamSession.OneActivePerUser` | packages/application/src/exam/session.ts:80-157 | However entering, ending, resetting, instructor releases (read and write apart) and automatic closing interleave, a user has at most one active session over all exams. |
| `ExamSession.SubmittedIsFinal` | packages/application/src/exam/session.ts:106-157 | Once a participation is submitted it stays submitted and no session of that user and exam is active again, in every continuation of every run. |
| `ExamSession.MarkIsFinalExactly` | packages/application/src/exam/session.ts:198-215 | The submitted mark on the session row itself is final in all runs if and only if the participation was not disqualified beforehand: a release that read the row earlier overwrites the mark. |
| `ExamSession.OpenRunsAlone` | packages/application/src/exam/session.ts:85-157 | The five steps of an entry, run without interruption, amount to the entry as one operation. |
| `ExamSession.EndRunsAlone` | packages/application/src/exam/session.ts:180-215 | The same for ending a session. |
| `ExamSession.EntryWrites` | packages/application/src/exam/session.ts:120-154 | Entering changes no other row; a session seen active stays, any other becomes active without a reason; the participation becomes entered exactly if it was missing or only registered. |
| `ExamSession.EndWrites` | packages/application/src/exam/session.ts:197-205 | Ending changes no other row; the session is over for the reason stated, and submitting hands in an entered participation. |
| `ExamSession.ResetWrites` | packages/application/src/exam/session.ts:434-480 | Resetting changes no other row and none that exists. |
| `ExamSession.AutoCloseWrites` | packages/application/src/exam/session.ts:262 | The automatic close ends exactly the active sessions of its exam, as out of time; every other session and all participations are unchanged. |
| `ExamSession.StepTouches` | packages/application/src/exam/session.ts:80-272 | In any interleaving the rows of a user and exam change only by committing a transaction of that user and exam, or by closing that exam. |
| `ExamSession.ExamSessions.OpenSessionInTx` | packages/application/src/exam/session.ts:85-157 | An entry succeeds into an active session with its participation entered, refuses with a conflict exactly when another exam holds an active session, and as forbidden exactly when not enrolled or already submitted; no other row changes, and none when refused. |
| `ExamSession.ExamSessions.EndSession` | packages/application/src/exam/session.ts:180-215 | For an enrolled user ending reports a missing session exactly when there is none that is active or was ended for a stated reason; a submitted session is returned unchanged; otherwise the session is over for that reason, an entered participation is handed in when submitting, and no other row changes. |
| `ExamSession.ExamSessions.ReleaseSessionAsInstructor` | packages/application/src/exam/session.ts:394-432 | A release succeeds exactly on an active session, ends it as released by the instructor, and changes no other row and no participation. |
| `ExamSession.ExamSessions.AutoCloseForExam` | packages/application/src/exam/session.ts:246-272 | A due close ends exactly the active sessions of the exam, as out of time, and returns their number; every other session and all participations are unchanged. |
| `ExamSession.ExamSessions.ResetStudentIpBinding` | packages/application/src/exam/session.ts:434-480 | A reset adds the missing rows of that user and exam and changes nothing else, so it makes no session active and ends none. |
| `StepUp.MarkerInjective` | packages/application/src/api-token/step-up.ts:150-152 | Equal markers mean equal user and generation, whatever characters the user id contains. |
| `StepUp.RebindingLaw` | packages/application/src/api-token/step-up.ts:57-70 | Rebinding carries over exactly the live proofs of the previous marker with at least half a second left, each with its remaining whole seconds, deletes admin mode and touches no other key. |
| `StepUp.RebindingLeavesNothing` | packages/application/src/api-token/step-up.ts:57-70 | After rebinding to another user or generation no live key of the session carries the previous marker. |
| `StepUp.RebindingLengthensExactly` | packages/application/src/api-token/step-up.ts:57-70 | Rebinding lengthens the life of a proof if and only if its time left rounds up to a whole second, and by half a second at most. |
| `StepUp.FactorChangeLaw` | packages/application/src/api-token/step-up.ts:72-100 | A factor change is accepted exactly on a live settings grant of the previous generation with half a second left; then every proof of the session carries the new marker for its remaining whole seconds or a fresh term, and admin mode is gone; otherwise nothing but that grant can go. |
| `StepUp.FactorChangeStays` | packages/application/src/api-token/step-up.ts:72-100 | A factor change leaves the keys of every other session as they are. |
| `StepUp.MarkingLaw` | packages/application/src/api-token/step-up.ts:21-29 | Verifying a session renews its proofs with the marker: an hour for the token page, a day for a super admin's second factor, ten minutes for the others, none for the second factor of someone who is no admin; admin mode and all other sessions stay as they are. |
| `StepUp.GrantLaw` | packages/application/src/api-token/step-up.ts:31-40 | Admin mode begins, for a week, exactly if second factor and step-up are both live with the marker, and no other key changes. |
| `StepUp.ResolveLaw` | packages/application/src/api-token/step-up.ts:42-55 | Resolving ends an admin mode of another marker and with it a second factor that is not of this one, and leaves every other key alone. |
| `StepUp.AfterResolveLaw` | packages/application/src/api-token/step-up.ts:363-383 | A disabled user or one who is no admin loses second factor and admin mode and nothing else; a super admin's proofs are only read. |
| `StepUp.ElevationNeedsGrant` | packages/application/src/api-token/step-up.ts:337-383 | In every run, with generations moving on between check and script: a regular admin is let through only on a grant to the same session, user and generation, less than a week old, whose script read both proofs. |
| `StepUp.NoGrantNoElevation` | packages/application/src/api-token/step-up.ts:337-391 | Admin mode that is absent stays absent until a new grant. |
| `StepUp.SecurityChangeEndsAdminMode` | packages/application/src/api-token/step-up.ts:57-100 | Rebinding, an accepted factor change and revoking remove admin mode. |
| `StepUp.ProofsOnlyAge` | packages/application/src/api-token/step-up.ts:57-70 | Without a new verification or factor change a proof that is gone stays gone, and one that lives ends at most half a second per rebinding later than it was going to. |
| `StepUp.KeySpace.MarkVerifiedSession` | packages/application/src/api-token/step-up.ts:21-29 | Marking writes the step-up, token page, settings and, for admins, the session proof, if the generation is current. |
| `StepUp.KeySpace.GrantAdminMode` | packages/application/src/api-token/step-up.ts:337-361 | A grant succeeds exactly for a regular, enabled, current admin whose two proofs are live with the current marker. |
| `StepUp.KeySpace.ResolveAdminAccess` | packages/application/src/api-token/step-up.ts:363-383 | Resolving answers from the keys and removes stale ones as specified. |
| `StepUp.KeySpace.RebindVerifiedSession` | packages/application/src/api-token/step-up.ts:267-285 | The script loop over the four proof keys is the rebinding of the law. |
| `StepUp.KeySpace.MarkFactorChangeVerifiedSession` | packages/application/src/api-token/step-up.ts:287-313 | The script is the factor change of the law. |
| `DurableWork.EachKindFirstOnce` | apps/worker/src/activities/durable-work-runner.ts:87-94 | Over as many consecutive offsets as there are kinds, each kind is tried first exactly once. |
| `DurableWork.NoKindStarves` | apps/worker/src/activities/durable-work-runner.ts:106-136 | A kind that always has work is processed within any such window of batches. |
| `DurableWork.BatchAccounts` | apps/worker/src/activities/durable-work-runner.ts:137-186 | Claimed equals succeeded plus retried plus dead; a kind is reported exactly when something was claimed; nothing is claimed exactly when no kind has work. |
| `DurableWork.RotationLaw` | apps/worker/src/activities/durable-work-runner.ts:87-94 | The kinds are asked in turn from the offset on, round the end of the list. |
| `DurableWork.BatchLaw` | apps/worker/src/activities/durable-work-runner.ts:106-186 | A batch claims for the first kind in that turn that has work, fails if an item is of an unknown kind or cannot be recorded, and otherwise reports how many of its items ended in each way. |
| `DurableWork.ProcessDurableWorkBatch` | apps/worker/src/activities/durable-work-runner.ts:106-186 | The loops compute that batch, ask the kinds in rotated order, stop at the first that has work, and ask all of them before giving up. |
| `DurableWork.RetryDelayDoubles` | apps/worker/src/activities/durable-work-runner.ts:96-99 | The retry delay starts at the base, doubles with every attempt up to the cap, never shrinks, and stays at the cap. |
| `DurableWork.DrainReturnsOnlyWhenIdle` | apps/worker/src/workflows/durable-work.ts:52-78 | An execution returns only after a wave in which some batch found nothing, every earlier batch having claimed something; it continues elsewhere only after a hundred busy batches; it fails only on a failing batch of its last wave. |
| `DurableWork.SumConserves` | apps/worker/src/workflows/durable-work.ts:40-46 | If each batch accounts for what it claimed, so does every total. |
| `DurableWork.SumAddsUp` | apps/worker/src/workflows/durable-work.ts:40-46 | Each number of a total is the sum of that number of the batches, and the kind it names is that of the last batch that claimed something. |
| `DurableWork.DrainDurableWork` | apps/worker/src/workflows/durable-work.ts:35-81 | The loop has that outcome and launches exactly the consecutive offsets of its waves; an offset that is no safe natural number fails before anything is launched. |
| `DurableWork.OffsetsConsecutive` | apps/worker/src/workflows/durable-work.ts:53-80 | Across any number of continued executions the launched offsets are consecutive: none skipped, none twice. |
| `DurableWork.ChainEndsIdle` | apps/worker/src/workflows/durable-work.ts:40-80 | Across continued executions every batch before the final wave claimed something, and the returned total is that of the last execution alone. |
| `Descendants.DescendantsRssKb` | apps/sandbox-runner/native/nojv-exec.c:153-168 | For a snapshot with distinct identifiers, the caller not below itself and room for it, the total is the memory of every transitive descendant once and nothing else; for every snapshot the walk ends and stays inside the queue array. |
| `Descendants.SumOfWithin` | apps/sandbox-runner/native/nojv-exec.c:159-166 | Adding up distinct processes in queue order equals adding them up along the snapshot. |
| `Descendants.QueueHasRoom` | apps/sandbox-runner/native/nojv-exec.c:155-162 | The queue is never full while a child is still to be queued, so the bound on the queue cuts nothing off. |
| `Descendants.ChildIsNew` | apps/sandbox-runner/native/nojv-exec.c:162-164 | A child that the scan comes to is not in the queue yet. |
| `Descendants.LineIsQueued` | apps/sandbox-runner/native/nojv-exec.c:159-166 | When the walk ends every transitive descendant is in the queue. |
| `ProblemLetter.ProblemLetter` | packages/core/src/problem-letter.ts:1-11 | For an ordinal from 1 the text is nonempty, over A to Z, and its bijective base-26 value is the ordinal; below 1 it is the decimal text. |
| `ProblemLetter.EveryLabelIsUsed` | packages/core/src/problem-letter.ts:5-9 | Every text over A to Z is the label of its value. |
| `ProblemLetter.LabelsInOrder` | packages/core/src/problem-letter.ts:5-9 | Labels are ordered by length and then alphabetically exactly as their ordinals are, and are equal only for equal ordinals. |

## Left out

- The database, Redis, S3, the Temporal server, Kubernetes and child processes: tables and key spaces are maps, and every call to the outside is an input that says how it turns out.
- MarkdownHtml.MarkHtml: the pass returns at the first `<` of a tag after which no kept `>` follows; the rule gives up there too, so comments after that point stay in the text.
- MarkdownLinks.LinkScanner.LinkDestinationEnd: the title tail is stated with the memory of its finders, because it is not always the naive scan; `MarkdownTitles.DestinationExactly` says exactly when it is.
- Markdown emphasis, escapes, entities, block prefixes, fences, tables and the final joining of lines; Unicode word classes.
- `fillRanges` takes a flat list of numbers; the model takes the list of its pairs.
- FrameCodec.ParseEncoded: for frames that the receiving side accepts; the encoder itself accepts any type byte and any length below 2^32.
- InteractiveStream.TalkArrives: for a channel that has not failed before and an index that has not finished before its talk is over, which `converse` does only on a failure; a child that has closed its stdin is not offered more, and back-pressure (pause, resume, drain) is not modelled. A talk that comes before any reader is cut off by the read-ahead bound, as `ReadAheadExactly` states.
- The deadline of `ready` and the frames sent after a failure.
- LifecycleReconciler.Reconcile: without interference; under interference the eight attempts can run out, and `LifecycleProtocol` proves safety only.
- Notifications, score convergence jobs and the advisory and row locks of the roster: the binding runs as one transaction.
- Heartbeats, activity retries and zombies of the judge: an activity that has been reported failed makes no further calls, and a row goes to another workflow only when its own is no longer running, so not while an activity runs. The branches for executions started before a patch are not modelled, nor is `judgeCleanupWorkflow`, which repeats `reconcileJudgeStage` every minute until it answers true.
- JudgeStage.Combine: of a stage result only the compilation error, the pipeline error, the testcase results and the raw runs.
- Reading node load from `/proc` and logging in the slot allocator.
- TemporalClient.ClosedExactlyOnce: once nothing is pending; whether the outside ever settles its promises is not the module's to guarantee.
- Exam enrolment, course archiving, the proctoring gate and address pins are answers given to the exam operations; events are not recorded. Rows are never deleted.
- StepUp.ElevationNeedsGrant: for regular admins; a super admin is let through on the session proof alone, as the source does. Handoff tickets and the one-time-code filter are not modelled.
- The credential reconciliation that precedes a drain, and the sorting of the kinds, which come as a list without repetition.
- DurableWork.NoKindStarves: for batches that come back; a batch that raises ends the drain.
- Descendants.DescendantsRssKb: the snapshot and the memory of each process are inputs; reading `/proc` is not modelled, and a snapshot with the caller below itself only ends in bounds.
- ProblemLetter.ProblemLetter: for integers; the source is typed for any number.
