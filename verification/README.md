# Nightdesk verification model

A Dafny model of the parts of Nightdesk whose correctness is hard to see by reading one
function, with machine-checked proofs of the properties those parts exist for.
`dafny verify dfyconfig.toml` checks all of it.

| area | files |
|---|---|
| mid-run steering of an agent run | `SteerMachine`, `SteerLoop`, `SteerSafety`, `SteerLooks`, `SteerReport`, `SteerCancel`, `SteerOrder` |
| per-project toggle queue of the browser | `ToggleMachine`, `ToggleQueue`, `ToggleSafety`, `ToggleLateWrites`, `ToggleOutcomes`, `ToggleProgress` |
| server-side transcript folds | `Transcript`, `Pairing`, `Grouping`, `SubagentIndex`, `Placement` |
| the browser's transcript tree, and where it agrees with the server | `RenderTree`, `TreePlacement`, `ViewsAgree` |
| both views, told by ids, kinds and texts alone | `AgentCards`, `ShownResults` |
| fence splitter, overlay printer, second splitter | `Text`, `Fences`, `FenceAgreement` |
| diff rows | `DiffRows` |
| transcript file and its sequence numbers | `TranscriptFile` |
| shortcuts, palette matcher, relative time, full-text index | `Keymap`, `Fuzzy`, `RelativeTime`, `TicketIndex` |

Where the source runs a loop over variables, or mutates an object, the model is a method or a
class, proved equal to a function of its inputs or of the old state; the properties are then
lemmas about those functions. The two concurrent parts are state machines: a class whose
methods run the code between two points where control is given up, each proved to make one
step of the machine, and lemmas over all runs of the machine under every interleaving.

## How the source is read

- **Steering.** A step covers the code from one `await` to the next. The set of finished tasks
  is the one at the moment `asyncio.wait` returns. A fetch that is cancelled may have lost a
  line or ended the stream: after it, the next fetch is unconstrained. An exception out of a
  POST or of the stream ends the loop (`Raised`). JSON decoding is abstract: a line is
  classified by the branch it takes. `translate_event` is used for one effect, recording a
  `session.error`.
- **Toggles.** The GET is read, and the PUT applied, at any time between sending and answer. A
  PUT that is reported failed may have been applied, may be applied at any later time, or never.
  Each toggle notes when, on the server's clock, its GET was answered and its PUT took effect.
  This client is the only writer.
- **Transcript events.** The ids, texts and parents the schema declares as strings are strings
  when present; absent, null and empty are told apart where the source tells them apart.
  `Other(0)` stands for the falsy numbers and booleans.
- **White space and line breaks** follow each language: `\s`, `trim`, `split("\n")` in
  JavaScript; `\s`, `strip`, `splitlines` and universal newlines in Python.
- **JSON on file** is a pair of functions assumed to print an object on one line between braces
  and to parse it back (RFC 8259, section 7, forbids a raw line break in a string).

## Where the code and its comments differ

- `pair_tool_events` says it drops *the* redundant result. When the last result echoes the
  closing prose, all results of the stream are dropped, including one with other text:
  `EchoDropsOtherResults`. `NoResultTextLostExactly` gives the streams on which no text is lost.
- The toggle queue says that each toggle sees the previous one's write. It orders promises, not
  requests: after a PUT was rejected on the client (`frontend/src/api/client.ts:74-86` rejects
  whenever `fetch` throws) it can still reach the server and undo a later toggle whose caller
  was told of success: `LateWriteLosesUpdate`. `LateInTimeLosesNothing` and
  `FoldExactlyInOrder` say when it does not.
- `buildTree` is said to mirror the server's pairing and grouping. `ViewsAgreeExactly` gives
  exactly the streams on which it does.
- The two fence splitters are meant to read text alike. They differ on a fence followed by a
  byte order mark or a unit separator, on a final line break, on a bare opening fence at the
  end, and on empty text: `AgreeExactly`, `ByteOrderMarkDiffers`.
- Follow-ups are queued, but a drain can overtake one that the steer task took during a POST:
  `DrainCanOvertake`; `FifoExactly` says exactly when the order is kept.
- A chord whose prefix is itself bound can never fire: `ChordReachableExactly`.
- A cancelled run is not always reported as cancelled: `CancelCanBeMissed`; `CancelledOutcome`
  says exactly when it is.

## Model

| member | source | states |
|---|---|---|
| SteerSafety.StepKeeps | src/nightdesk/backends/opencode_driver.py:258-346 | every step of the loop or its environment keeps the invariant: follow-ups conserved, discards justified, idles and injections alternating, success meaning what it should |
| SteerSafety.RunKeeps | src/nightdesk/backends/opencode_driver.py:258-346 | the invariant holds after every run, under every interleaving |
| SteerSafety.EveryFollowUpHasOnePlace | src/nightdesk/backends/opencode_driver.py:264-334 | each queued follow-up is in exactly one of: queue, steer task, POST under way, sent, failed, dropped; its POST began at most once; it is dropped only after cancellation and fails only by its own POST |
| SteerSafety.SuccessDeliversAll | src/nightdesk/backends/opencode_driver.py:314-346 | success means every follow-up was sent exactly once, none is queued, held or discarded, no error, no cancellation |
| SteerSafety.FinishesOnCleanIdle | src/nightdesk/backends/opencode_driver.py:245-257 | the idle that closes an injected turn never finishes the run, whatever is reported: a run that leaves the loop on an idle, with or without a recorded error, ends injection, kept idle, final idle, or had no injection; kept idles number at most the injections |
| SteerReport.ReportIsHonest | src/nightdesk/backends/opencode_driver.py:310-346 | success only right after an own-session idle, with no error among this session's events that were looked at in time; a failure names the last such error, or the truncated stream |
| SteerReport.SuccessSawNoError | src/nightdesk/backends/opencode_driver.py:311-342 | a run that reports success has looked at no error event of its session |
| SteerLooks.TranslatedExactly | src/nightdesk/backends/opencode_driver.py:294-313 | over every run the translator gets exactly the looked-at lines that are events of this session or of none, before cancellation, in order |
| SteerLooks.LooksAreArrivals | src/nightdesk/backends/opencode_driver.py:258-304 | what is looked at has arrived, in that order, and nothing is looked at twice, though cancelled fetches may lose lines |
| SteerLooks.LineFate | src/nightdesk/backends/opencode_driver.py:297-313 | a line that is no data, empty or not JSON, or another session's, goes back to the wait; of lines only a JSON value that is no object raises; an event of this session notes its error; after cancellation all lead to the abort |
| SteerLooks.IdleFate | src/nightdesk/backends/opencode_driver.py:314-342 | the own idle POSTs the first queued follow-up; with none it goes on after an injection, else it ends the run, failed by a noted error, otherwise with success |
| SteerLooks.StreamFate | src/nightdesk/backends/opencode_driver.py:294-346 | a broken stream raises, an ended one fails the run with the noted error or as truncated |
| SteerLooks.HeldIsPosted | src/nightdesk/backends/opencode_driver.py:271-276 | a follow-up the steer task took is POSTed by the loop's next step, unless cancelled, and the task is armed again |
| SteerLooks.DrainGoesOn | src/nightdesk/backends/opencode_driver.py:322-332 | after a drain's POST the next queued follow-up is POSTed, until the queue is empty |
| SteerLooks.ErrorThenIdleFails | src/nightdesk/backends/opencode_driver.py:311-340 | an error event and then the idle make a failure that names the error |
| SteerReport.StepReports | src/nightdesk/backends/opencode_driver.py:310-346 | each step keeps the tie between translated events, recorded error, decided idles and outcome |
| SteerCancel.CancelStopsWork | src/nightdesk/backends/opencode_driver.py:268-300 | once cancellation is seen no event is translated, no POST begins and success is unreachable, whatever follows |
| SteerCancel.CancelBoundsRuns | src/nightdesk/backends/opencode_driver.py:268-300 | without further enqueues every run after cancellation is no longer than a bound that counts queued and held follow-ups |
| SteerCancel.CancelLeaves | src/nightdesk/backends/opencode_driver.py:284-300 | a cancelled loop is never stuck: a run of its own steps alone, with no follow-up, line or failure from outside, leads it out within the bound, not with success |
| SteerCancel.CancelledOutcome | src/nightdesk/backends/opencode_driver.py:284-300 | a run that was cancelled and has returned reports "cancelled" if and only if no POST raised and the stream had neither ended nor broken off when it was last looked at; it raises if and only if a POST did or the stream broke; else it names the recorded error or the truncated stream |
| SteerCancel.CancelCanBeMissed | src/nightdesk/backends/opencode_driver.py:294-300 | a run that is cancelled first and reports a truncated stream |
| SteerOrder.FifoExactly | src/nightdesk/backends/opencode_driver.py:264-329 | POSTs begin in queueing order if and only if no drain took an item while the steer task held an older one |
| SteerOrder.DrainCanOvertake | src/nightdesk/backends/opencode_driver.py:322-329 | a run in which the third follow-up is delivered before the second |
| SteerLoop.Driver.WaitReturned | src/nightdesk/backends/opencode_driver.py:264-313 | from the return of `asyncio.wait` to the next await the driver makes exactly the machine's step |
| SteerLoop.Driver.PostReturned | src/nightdesk/backends/opencode_driver.py:205-224 | so it does after a POST: the delivery is recorded, the idle window is marked, then the snapshot or the drain goes on |
| SteerLoop.Driver.DrainQueue | src/nightdesk/backends/opencode_driver.py:315-334 | the drain loop stops at the first POST, or after throwing the queue away when cancelled, and then decides the idle |
| SteerLoop.Driver.HandleLine | src/nightdesk/backends/opencode_driver.py:294-334 | a fetched line is skipped, translated or drained on as the machine says, whose steps on a line are those of LineFate and IdleFate |
| ToggleSafety.StepKeeps | frontend/src/api/integrations.ts:174-209 | every step, a late write included, keeps the chain order, the map of tails, the freshness of what was read, and the fold of projects written in order |
| ToggleSafety.ServerIsFold | frontend/src/api/integrations.ts:191-209 | no lost update: where each effective PUT came before the GET of every later effective toggle was answered, the project's list is the fold in enqueue order of exactly the toggles whose PUT took effect, whatever interleaves or fails; a caller told of success is among them |
| ToggleLateWrites.LateInTimeLosesNothing | frontend/src/api/integrations.ts:166-183 | in every run whose late PUTs, if any, reach the server before a later toggle of the project is answered, each project's list is that fold |
| ToggleLateWrites.FoldExactlyInOrder | frontend/src/api/integrations.ts:166-183 | if each toggle of a project changes a repo of its own, its list is the fold if and only if effective PUTs came in that order |
| ToggleLateWrites.LateWriteLosesUpdate | frontend/src/api/integrations.ts:174-178 | a run in which a rejected PUT arrives late and takes away the repo that the next toggle's caller was told is attached |
| ToggleSafety.LastToggleWins | frontend/src/api/integrations.ts:203-208 | in that fold the last effective toggle of a repo decides whether it is linked, else the initial list does |
| ToggleSafety.OneAtATime | frontend/src/api/integrations.ts:166-183 | at most one toggle of a project is between start and settle, and an unsettled one always has a map entry |
| ToggleSafety.StartsAfterPredecessors | frontend/src/api/integrations.ts:174-178 | a toggle starts only after all earlier ones of its project have settled, whatever became of them |
| ToggleOutcomes.EachSeesItsOwnOutcome | frontend/src/api/integrations.ts:176-183 | a caller is told of success if and only if its own PUT was answered, and of failure if and only if its own GET or PUT was rejected |
| ToggleOutcomes.UnreadWritesNothing | frontend/src/api/integrations.ts:203-208 | a toggle whose GET never came back changes nothing on the server, then or later |
| ToggleProgress.FirstUnsettledMoves | frontend/src/api/integrations.ts:174-178 | the first unsettled toggle of a project can always move, so a failed one never wedges the queue |
| ToggleProgress.RunsAreBounded | frontend/src/api/integrations.ts:174-209 | without new toggles every run ends within seven steps a toggle |
| ToggleProgress.QuiescentMeansIdle | frontend/src/api/integrations.ts:179-182 | when the client has nothing left to do every caller has been answered and the map is empty |
| ToggleQueue.Client.EnqueueToggle | frontend/src/api/integrations.ts:174-183 | the new toggle waits for the latest toggle of its project, or for none, and then all earlier ones have settled; it is the project's tail; other projects keep theirs |
| ToggleQueue.Client.MergeAndPut | frontend/src/api/integrations.ts:203-208 | the list that is PUT has the toggled repo as asked and every other repo as read; with no PUT in between that is the list the server now has, so nothing else is clobbered |
| ToggleQueue.Client.Finally | frontend/src/api/integrations.ts:179-181 | an entry goes only if it is this toggle's own, all others stay as they are, and a project without an entry has only settled toggles |
| Pairing.ResultDuplicatesLastAssistant | src/nightdesk/transcript_view.py:894-919 | true exactly when the last result, trimmed, is the last non-blank prose, trimmed |
| Pairing.MergeSubagent | src/nightdesk/transcript_view.py:646-663 | the loop over the merge fields takes over exactly the non-empty ones |
| Pairing.PairToolEvents | src/nightdesk/transcript_view.py:922-977 | the loop, with cards shared and changed after they were emitted, yields the units that a whole-stream definition gives each event |
| AgentCards.CardUnitExactly | src/nightdesk/transcript_view.py:948-963 | a sub-agent's event has a unit if and only if no earlier event is of the same agent: the same task id, or without task ids the same tool id |
| AgentCards.CardShows | src/nightdesk/transcript_view.py:646-663 | each of the thirteen merge fields of a card shows what the last of its agent's events to give a value gave, every other field the first event's |
| AgentCards.NodeExactly | frontend/src/components/TranscriptView.tsx:149-161 | the browser opens a node for exactly those events, and merges the others into their agent's first |
| AgentCards.NodeShows | frontend/src/components/TranscriptView.tsx:40-58 | the same for a node, with the browser's nine fields and its notion of empty |
| AgentCards.RowExactly | src/nightdesk/transcript_view.py:681-692 | the sidebar has a row for exactly those of them that carry an id |
| Pairing.PairsInOrder | src/nightdesk/transcript_view.py:955-977 | units stand in stream order |
| Pairing.PairsStep | src/nightdesk/transcript_view.py:948-963 | one more event changes only the card of its own agent |
| Transcript.FoldedField | src/nightdesk/transcript_view.py:653-663 | a card's field holds the last non-empty value among its agent's later events, else the first event's |
| Transcript.FoldKeepsKey | src/nightdesk/transcript_view.py:646-663 | merging never changes the key a card was opened with, though it may fill in either id |
| Grouping.GroupBySubagent | src/nightdesk/transcript_view.py:753-779 | the loop, with nodes shared through a dictionary, builds the forest in which each unit hangs under the latest earlier card its parent id names |
| SubagentIndex.IndexSubagents | src/nightdesk/transcript_view.py:666-717 | a row per agent in first-seen order: merged card, description from its start, first prompt |
| SubagentIndex.SidebarMatchesCards | src/nightdesk/transcript_view.py:666-717 | the sidebar's rows are the keyed cards that pairing emits: same number, same order, same merged fields, same keys |
| SubagentIndex.ProgressKeepsDescription | src/nightdesk/transcript_view.py:676-696 | once there is a description only a start event replaces it |
| AgentCards.DescriptionFromStart | src/nightdesk/transcript_view.py:676-696 | a row's description is that of its agent's last event in phase "started" that has one |
| AgentCards.DescriptionWithoutStart | src/nightdesk/transcript_view.py:676-696 | without such an event, that of the agent's first event that has one |
| AgentCards.PromptIsFirst | src/nightdesk/transcript_view.py:697-699 | a row's prompt is its agent's first |
| Placement.GroupKeepsUnits | src/nightdesk/transcript_view.py:753-779 | grouping neither loses nor copies a unit |
| Placement.PlacedExactly | src/nightdesk/transcript_view.py:922-977 | for every stream, exactly how often each event is shown after pairing and grouping |
| Placement.ResultPlacedOnce | src/nightdesk/transcript_view.py:941-977 | a tool result is shown exactly once if and only if its id is used at most once, before it, and it is the one result after that use |
| Placement.WellFormedPlacesOnce | src/nightdesk/transcript_view.py:922-977 | with unique ids and results after calls every event is shown exactly once, except folded sub-agent events and results the echo rule drops |
| Placement.PairsShowTheirEvents | src/nightdesk/transcript_view.py:941-977 | each unit shows its own event or merged card, and a call the last result with its id, if there is one |
| Placement.ChildrenNameTheirCard | src/nightdesk/transcript_view.py:753-779 | a nested unit names its card's id as parent and no later card before it has that id |
| Placement.ForestInOrder | src/nightdesk/transcript_view.py:753-779 | stream order holds at top level, within each card, and from card to child |
| Placement.ResultTextShownExactly | src/nightdesk/transcript_view.py:934-945 | a result's text is on the page, in its own unit or in that of some prose, if and only if there is no echo or some prose of the stream says the same |
| Placement.NoResultTextLostExactly | src/nightdesk/transcript_view.py:902-945 | for every stream, no result's text is lost if and only if there is no echo or each result repeats some prose; so none is when all repeat the closing prose |
| Placement.EarlierProseShowsIt | src/nightdesk/transcript_view.py:902-945 | a stream that loses nothing though one dropped result does not repeat the closing prose |
| Placement.EchoDropsOtherResults | src/nightdesk/transcript_view.py:934-958 | a stream whose earlier error result is shown nowhere, and its text neither |
| ShownResults.ServerLeavesOutExactly | src/nightdesk/transcript_view.py:894-945 | the server shows each result once, or, if and only if the final one, trimmed, is the last non-blank assistant text, trimmed, none |
| ShownResults.CallShowsItsResult | src/nightdesk/transcript_view.py:936-969 | a call is shown with the last result that carries its id, and alone when none does |
| ShownResults.UnitUnderLatestCard | src/nightdesk/transcript_view.py:753-779 | a unit that names an earlier card's id stands under the latest such card |
| RenderTree.BuildTree | frontend/src/components/TranscriptView.tsx:90-174 | the one pass, with nodes shared through two maps and mutated, builds the tree that a whole-stream definition of each event's role gives |
| RenderTree.TreeStep | frontend/src/components/TranscriptView.tsx:132-171 | an event adds one top, one child, one merge, or nothing |
| TreePlacement.TreePlacedExactly | frontend/src/components/TranscriptView.tsx:90-174 | for every stream, exactly how often each event is shown in the tree |
| TreePlacement.WellFormedTreePlacesOnce | frontend/src/components/TranscriptView.tsx:83-174 | with unique ids and results after calls every event is shown exactly once, except dropped results, merged events and the calls that started a sub-agent |
| TreePlacement.ResultInTreeOnce | frontend/src/components/TranscriptView.tsx:109-123 | a tool result is shown exactly once if and only if its id started a sub-agent or is used at most once and before it |
| TreePlacement.TreeNesting | frontend/src/components/TranscriptView.tsx:149-171 | nodes are in stream order; a child comes after its card, names its id, and no later card had been opened for it |
| TreePlacement.DroppedExactly | frontend/src/components/TranscriptView.tsx:72-147 | a result is dropped if and only if it is no error and the open turn already shows, at top level, a latest prose comparable with it by prefix or suffix |
| ShownResults.LeftOutExactly | frontend/src/components/TranscriptView.tsx:60-147 | by kinds, flags and texts: the tree leaves a result out if and only if it says no error and its text begins or ends with, or begins or ends, the latest main prose of the turn still open |
| ShownResults.NewTurnKeepsResult | frontend/src/components/TranscriptView.tsx:135-139 | a user message, a user turn or a delivered follow-up with no main prose after it keeps a later result shown |
| ShownResults.ErrorIsShown | frontend/src/components/TranscriptView.tsx:141-144 | a result with the error flag or an error subtype is shown |
| ShownResults.TaskCallLeftOut | frontend/src/components/TranscriptView.tsx:163-164 | a call is left out if and only if some sub-agent carries its id |
| ShownResults.ChildOfLatestCard | frontend/src/components/TranscriptView.tsx:166-171 | a shown event whose parent id earlier cards were opened with is a child of the latest of them |
| ViewsAgree.ViewsAgreeExactly | frontend/src/components/TranscriptView.tsx:83-174 | tree and forest have the same outline (events, results, order, nesting) if and only if each result is dropped by both or neither, no call started a sub-agent, and the card a shown event names is the same by the ids that cards open with and by those they end with |
| ViewsAgree.OnlyEchoesDiffer | frontend/src/components/TranscriptView.tsx:83-174 | where agents keep their tool id and no call started one, the two views differ exactly by results that only one of them drops |
| ViewsAgree.TreeOutline | frontend/src/components/TranscriptView.tsx:132-171 | the tree's outline is built by putting each event in its spot in turn |
| ViewsAgree.ForestOutline | src/nightdesk/transcript_view.py:753-779 | so is the forest's, with the dictionary of cards told in events of the stream |
| Fences.Segments | frontend/src/components/MarkdownSource.tsx:95-153 | the loop computes the recursive splitter |
| Fences.ScanKeepsLines | frontend/src/components/MarkdownSource.tsx:102-139 | no line is lost, invented or moved |
| Fences.PrintParse | frontend/src/components/HighlightedPromptArea.tsx:131-160 | the overlay repaints any text character for character |
| Fences.ParsePrint | frontend/src/components/HighlightedPromptArea.tsx:131-160 | any well-formed segment list is read back from its own print: no two proses in a row, bodies free of fences, only the last segment unclosed, and no lone empty prose, for the empty text has no segment |
| Fences.ParseWellFormed | frontend/src/components/MarkdownSource.tsx:75-153 | the splitter yields only well-formed lists, so splitter and printer are inverse to each other |
| Fences.CodeBlock | frontend/src/components/MarkdownSource.tsx:95-153 | three back-ticks and a language, a line that is no fence, three back-ticks: exactly one closed block with that language and body |
| Fences.NoFenceIsProse | frontend/src/components/MarkdownSource.tsx:95-153 | a text without a fence line is one prose segment |
| Text.FenceIsMatch | frontend/src/components/MarkdownSource.tsx:103 | a line is a fence with a language if and only if it is three back-ticks, the language in letters, digits and four signs, and white space |
| Text.SpaceByCodePoint | src/nightdesk/transcript_view.py:204 | white space by code point, for both languages, and where they differ |
| Text.ReturnAndFeedEndLine | src/nightdesk/transcript_view.py:207-238 | a carriage return with a line feed is one line break |
| Text.TrimIs | src/nightdesk/transcript_view.py:919 | what is trimmed is white space at the ends, and all of it |
| FenceAgreement.AssistantSegments | src/nightdesk/transcript_view.py:207-238 | the server's loop computes its recursive splitter |
| FenceAgreement.ServerCodeBlock | src/nightdesk/transcript_view.py:207-238 | the server reads the same three lines as exactly one block with that language and body |
| FenceAgreement.AgreeExactly | src/nightdesk/transcript_view.py:204-238 | for text broken only by line feeds the two splitters agree if and only if the text is not empty, does not end in a break or in an opening fence, and no line is a fence to only one of them |
| FenceAgreement.UsualTextHasSameFences | src/nightdesk/transcript_view.py:204 | without unit separators and byte order marks no line is |
| FenceAgreement.ByteOrderMarkDiffers | src/nightdesk/transcript_view.py:204 | with a byte order mark after the ticks they differ, whatever follows |
| DiffRows.UnifiedDiffRows | src/nightdesk/transcript_view.py:131-157 | the nested loops yield each opcode's rows, deletions before insertions |
| DiffRows.ReplaceRows | src/nightdesk/transcript_view.py:147-153 | of a replaced range all deleted lines come before all inserted ones, each under its number |
| DiffRows.OneBlockRows | src/nightdesk/transcript_view.py:137-146 | the rows of an equal, a deleted and an inserted range, line by line |
| DiffRows.DiffSpellsBothTexts | src/nightdesk/transcript_view.py:131-157 | context and inserted rows spell the new text under the numbers one to its length; context and deleted rows spell the old text, deleted ones under their old numbers |
| DiffRows.DiffCounts | src/nightdesk/transcript_view.py:108-128 | the counts are the numbers of inserted and deleted rows, and old length plus insertions is new length plus deletions |
| TranscriptFile.Transcript.NextTranscriptSeq | src/nightdesk/transcript.py:217-232 | one above the highest integer number in the file, or zero |
| TranscriptFile.Transcript.AppendEvent | src/nightdesk/transcript.py:235-279 | its own scan gives the same number; one stamped line is added |
| TranscriptFile.Transcript.AppendEvents | src/nightdesk/transcript.py:282-320 | a batch adds a line for each object, numbered from one look at the file, and returns how many |
| TranscriptFile.ReadAppend | src/nightdesk/transcript.py:184-214 | reading back after an append to a file of whole lines yields what was there and then the event |
| TranscriptFile.BatchIsSingles | src/nightdesk/transcript.py:282-320 | a batch leaves the file that one-by-one appends would |
| TranscriptFile.OneSequenceSpace | src/nightdesk/transcript.py:217-320 | after any mix of appends the file reads as before, then every object in order with its content and its time, if it had one, numbered without gaps from above all earlier numbers |
| TranscriptFile.JunkIsSkipped | src/nightdesk/transcript.py:184-214 | a blank line, or one that decodes to no object, is skipped |
| Keymap.FindBind | frontend/src/lib/keymap.tsx:117-131 | the backward scan with a fallback finds the last route bind for the combo, else the last global one |
| Keymap.ResolvesTo | frontend/src/lib/keymap.tsx:117-131 | a combo resolves to the last route bind for it, or, without one, to the last global one |
| Keymap.UnboundResolvesToNothing | frontend/src/lib/keymap.tsx:117-131 | and to nothing if and only if it is not bound |
| Keymap.ReorderingResolvesAlike | frontend/src/lib/keymap.tsx:22-29 | a reordering that keeps the order within each scope resolves every combo alike |
| Keymap.RemoveGroup | frontend/src/lib/keymap.tsx:73-80 | removing one registration leaves the others, in order |
| Keymap.Shortcuts.Register | frontend/src/lib/keymap.tsx:73-80 | the registry is the live registrations in order, the new one last |
| Keymap.Shortcuts.Unregister | frontend/src/lib/keymap.tsx:76-79 | its remover takes out that registration and nothing else |
| Keymap.Shortcuts.Dispatch | frontend/src/lib/keymap.tsx:142-205 | a keydown fires at most one handler, the chord's before the combo's own; a prefix is pending exactly while one timer runs |
| Keymap.WhatAKeyDoes | frontend/src/lib/keymap.tsx:142-205 | for every key: ignored ones do nothing; the pending chord's bind fires if it may, else the combo's own if it may, while typing only binds that allow it; when nothing fires the combo becomes pending exactly outside text fields and when it begins a chord |
| Keymap.Shortcuts.TimerFires | frontend/src/lib/keymap.tsx:102-106 | a timer that is still running is the pending prefix's own: no stale one clears a newer prefix |
| Keymap.ChordReachableExactly | frontend/src/lib/keymap.tsx:178-204 | prefix then key fires the chord if and only if nothing is bound to the prefix alone |
| Fuzzy.FuzzyScore | frontend/src/lib/fuzzy.ts:4-21 | null exactly when the query is no subsequence; otherwise the score of the leftmost embedding, between n and 6n-2 |
| Fuzzy.WholeWordScores | frontend/src/lib/fuzzy.ts:14-17 | a whole word of n letters scores 3n+1: one each, three for its start, two for each that follows |
| Fuzzy.InitialsScore | frontend/src/lib/fuzzy.ts:14-17 | two initials with a sign between them, an underscore too, score four each |
| Fuzzy.InnerLetterScores | frontend/src/lib/fuzzy.ts:14-17 | a letter inside a word scores one |
| Fuzzy.FuzzyFilter | frontend/src/lib/fuzzy.ts:23-30 | a query of white space keeps all items; otherwise exactly the items whose key has the query as a subsequence, by non-increasing score, ties in order |
| Fuzzy.ScoreIsUnique | frontend/src/lib/fuzzy.ts:4-21 | a query has one score in a text |
| Fuzzy.RankingIsUnique | frontend/src/lib/fuzzy.ts:26-29 | that ranking is unique, so any stable sort gives it |
| RelativeTime.CountsAreInRange | frontend/src/lib/time.ts:15-34 | no unit is shown with a zero count or beyond its range |
| RelativeTime.Monotone | frontend/src/lib/time.ts:15-34 | a longer time never shows a smaller unit, nor a smaller count of the same unit |
| RelativeTime.ErrorIsBounded | frontend/src/lib/time.ts:15-34 | what is shown is off by at most half of each unit rounded on the way |
| RelativeTime.UnitsChangeExactlyAt | frontend/src/lib/time.ts:15-34 | the exact elapsed times at which the unit changes |
| RelativeTime.CountsChangeExactlyAt | frontend/src/lib/time.ts:15-34 | the exact elapsed times at which each count is shown |
| TicketIndex.InStepMeans | alembic/versions/0001_initial.py:195-208 | in step, each ticket has one index row with its own id, title and prompt, and no row is without a ticket |
| TicketIndex.InsertKeeps | alembic/versions/0001_initial.py:202-208 | the insert trigger keeps exactly one index row per ticket |
| TicketIndex.DeleteKeeps | alembic/versions/0001_initial.py:209-214 | so does the delete trigger |
| TicketIndex.Database.Update | alembic/versions/0001_initial.py:215-222 | so does the update trigger, also when the row id changes |
| TicketIndex.Database.RecreateIndex | alembic/versions/0017_inbox_nullable_profile.py:24-52 | the rebuild brings the index in step from any contents, after a rewrite that may have changed row ids |

## Left out

- The opencode server process, HTTP, authentication, the initial prompt and the mapping of the loop's outcome to an execution result: the driver passes the outcome on as it is, and turns a raised HTTP or OS error into a failure.
- Writing the transcript from inside the steering loop: each sent follow-up and each translated event is recorded in the history instead; a disk error there would end the loop as any exception does.
- ToggleLateWrites.FoldExactlyInOrder: its "only if" half is for toggles that each change a repo of their own; a lost toggle that changed nothing, or that a later one repeats, leaves the same list as one that was kept. The "if" half has no such condition.
- React rendering, query caches, inline markdown, syntax highlighting and the zero-width padding of the overlay.
- The sidebar's formatted columns (labels, durations, token counts), `tool_summary`, todo lists and stream statistics: finite case analysis on one card or a plain sum.
- Contents in the agreement of the two transcript views: their merge rules differ, so outlines are compared, and what a card shows is stated for each view on its own.
- `difflib` itself: its opcodes are taken to satisfy their documented contract, a precondition of the diff members.
- File system errors and a torn last line of the transcript file: the file is one of whole lines, as every writer here leaves it.
- `comboOf`, focus detection and the arrow keys re-sent to an open picker: a keydown carries its combo, and one under an open picker is ignored.
- `toLowerCase` of the matcher: it is applied to strings already lower-cased.
- The wording of relative times, and parsing of timestamps.
- The tokenizer of the full-text index, and other migrations.
- Scheduler, cron, sessions, providers, permissions and the command line.
