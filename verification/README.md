# Verified models of Shelley's hard cores

Shelley is a coding-agent server written in Go. This project models the parts
of it whose correctness depends on interleavings, on long-running state or on
hand-written parsers and interpreters, and proves what their comments, tests
and documentation promise, for every input and every run.

| part | modules | main results |
|---|---|---|
| terminal sessions that clients join and leave (dtach) | `Bytes`, `Options`, `ScrollbackRing`, `Wire`, `Session`, `SessionLocks`, `SessionDelivery`, `SessionReader`, `SessionTrace`, `SessionServed`, `SessionOversize` | exactly-once, in-order delivery in every interleaving, exactly when the scrollback fits in one frame; no circular wait |
| the apply_patch engine | `Text`, `Decimal`, `PatchModes`, `PatchMatch`, `PatchEdit`, `PatchApplies`, `PatchMoves`, `PatchUnique`, `PatchGrammar`, `PatchParse`, `PatchPrint`, `PatchAccepted`, `PatchChange`, `PatchPublished`, `PatchCommit`, `PatchEffect`, `PatchOrder` | the matcher's first hit in the strictest mode; edits are ordered disjoint regions, and determined; printing and parsing, and the converse; which texts of the published grammar are accepted; all-or-nothing commit |
| the streaming citation filter | `Citations`, `CitationSpec`, `CitationStream` | any split into deltas, over any interleaved blocks, strips as the whole text does; stripping has a declarative meaning |
| git's object store | `GitNumber`, `GitDelta`, `GitDeltaMeans`, `GitIndex`, `GitIndexWriter`, `GitOffset`, `GitChain`, `GitPackWriter` | delta interpreter sound and complete; index lookup is a linear scan and finds what was written; chains of at most fifty deltas |
| notes under compare-and-swap | `CommitNotes`, `CommitProgress` | the shared notes are the swapped updates, in order, in every interleaving; an undisturbed call succeeds |
| the agent loop's queue | `LoopQueue`, `LoopRun` | no lost wakeup, messages taken once and in order, overrides alone in their turn, groups whole |
| restart recovery | `Restart`, `RestartRun`, `InterruptedTools` | no boot loses a message of an unfinished turn, and queued messages are recorded once; open tool calls are closed |
| two tree algorithms | `ToolInput`, `SchemaRefs`, `SchemaMeaning` | the token automaton finds what a tree walk finds; reference expansion terminates and leaves only recursion |

Protocols are transition systems: a state, one function per atomic step, and
`Exec` over any sequence of steps. Code that updates objects in place is a class
whose methods are proved against functions of the old state.

Four promises do not hold of the code as it is; each has a witness and the exact
condition under which the code keeps it.

- Delivery to a dtach client breaks when the scrollback is larger than a frame's
  payload: the refused snapshot leaves the connection alive and output follows it
  (`SessionOversize.OversizeBreaksDelivery`, `SessionOversize.DeliveryIffSnapshotFits`).
- A patch with two updates of one file loses the first, since both are validated
  against the file as it was (`PatchOrder.SecondUpdateWins`). A patch leaves the files
  its operations leave one after another exactly when, at every path, the last
  operation that names it leaves the same in both (`PatchOrder.SameEffectIff`); it
  does whenever no operation updates a file that an earlier one names
  (`PatchOrder.SameEffectIfFresh`).
- The parser refuses texts of the grammar that models are given, such as an update
  that only moves a file (`PatchPublished.MoveAloneRefused`); it accepts the others
  (`PatchPublished.PublishedAccepted`).
- A tool call id that is answered, used again and left open is answered twice by
  recovery (`InterruptedTools.ReusedIsAnsweredTwice`,
  `InterruptedTools.AnsweredOnceIffNotReused`).

Check everything with `dafny verify dfyconfig.toml`.

## Model

| member | source | states |
|---|---|---|
| `ScrollbackRing.Ring.Write` | dtach/ring.go:17-29 | the buffer always holds the last capacity bytes of everything ever written, whatever the sizes of the writes |
| `ScrollbackRing.Ring.Snapshot` | dtach/ring.go:31-37 | a snapshot is the last capacity bytes written, and taking it changes nothing |
| `Bytes.LastNAbsorbs` | dtach/ring.go:17-29 | trimming before appending loses nothing: the last n bytes of a trimmed prefix plus new data are those of the whole |
| `Wire.Writer.WriteFrame` | dtach/protocol.go:44-60 | a frame is written whole, refused without a byte sent when its payload is too large, or cut off together with the connection |
| `Wire.Decode` | dtach/protocol.go:63-79 | an accepted frame's encoding is exactly the bytes consumed, and its payload is within the limit |
| `Wire.DecodeEncode` | dtach/protocol.go:44-79 | reading what was written gives the frame back and leaves the rest of the stream |
| `Wire.DecodeCutFrame` | dtach/protocol.go:63-79 | a frame cut short anywhere is never delivered |
| `Wire.ReaderSeesPrefix` | dtach/protocol.go:44-79 | wherever a connection stops, its reader has seen a prefix of the frames sent, and all of them if all bytes arrived |
| `Wire.ReaderSeesCut` | dtach/protocol.go:44-79 | the same when the bytes end in the start of a frame whose write was cut off |
| `Wire.EncodeResize` | dtach/protocol.go:82-95 | every terminal size survives encoding and decoding |
| `Wire.EncodeExit` | dtach/protocol.go:98-110 | every int32 exit code, negative ones included, survives encoding and decoding |
| `Wire.EncodeDecodeExit` | dtach/protocol.go:98-110 | every four-byte exit payload is the encoding of what it decodes to |
| `Bytes.BigEndian` | dtach/protocol.go:44-79 | four bytes are read most significant first |
| `Wire.FrameLayout` | dtach/protocol.go:44-60 | on the wire a frame is its type byte, four bytes with the payload's length, and the payload |
| `Wire.OversizeRefused` | dtach/protocol.go:63-79 | a header that announces more than 1 MiB is refused before any payload arrives |
| `Wire.ResizeLayout` | dtach/protocol.go:82-95 | a size is exactly four bytes: columns, then rows, each most significant byte first |
| `Wire.ExitLayout` | dtach/protocol.go:98-110 | an exit code is the int32 that its four bytes are, up to a multiple of 2^32 |
| `Session.ExecConcat` | dtach/server.go:171-278 | runs of the session compose: a run continues from the state another reached |
| `SessionLocks.ReachableLocks` | dtach/server.go:154-256 | in every reachable state each thread holds exactly the mutexes its position in the code says it holds |
| `SessionLocks.NoCircularWait` | dtach/server.go:154-256 | no interleaving of pump, joins, failed snapshot writes, drops and shutdown reaches a circular wait among send locks, session lock and ring lock |
| `SessionLocks.SomeHolderRuns` | dtach/server.go:154-256 | whenever a thread is kept waiting, some thread that holds a mutex is free to run |
| `SessionDelivery.ReachableInv` | dtach/server.go:142-256 | the delivery invariant holds after every run, when a snapshot fits in one frame |
| `SessionDelivery.DeliveredPrefix` | dtach/server.go:171-256 | in every run, the frames sent to a client are a prefix of: its snapshot with the last capacity bytes at its join, every later chunk once and in order, one exit frame |
| `SessionDelivery.DeliveredAll` | dtach/server.go:142-256 | after shutdown a client that was neither dropped nor left has been sent all of it; what it is in terms of the reads and the exit code is ServedAll |
| `SessionTrace.ChunksAreReads` | dtach/server.go:171-188 | in every run the appended chunks and the one on its way are exactly the nonempty reads of the PTY, in order, the read that comes with its end included |
| `SessionTrace.ReadsUntilEof` | dtach/server.go:171-188 | the pump stops reading exactly with the read that ends the PTY |
| `SessionTrace.ReportsGivenCode` | dtach/server.go:134-144 | in every run the code announced is the one the command was waited for with, and there is none before |
| `SessionTrace.GivenByAction` | dtach/server.go:134-144 | that code is the one of an action of the run, taken when the pump had ended |
| `SessionTrace.ServedAll` | dtach/server.go:116-256 | after shutdown, a client that was neither dropped nor left has been sent its snapshot, every later read of the PTY once and in order, and a last frame that decodes to the code the command exited with |
| `SessionServed.DeliveryHappens` | dtach/server.go:116-256 | for every chunk and every exit code there is a run in which a client is sent exactly a snapshot, that chunk and that code |
| `SessionDelivery.PumpDropsOnlyDead` | dtach/server.go:190-225 | in every reachable state, no step of the pump or of shutdown drops a connection that still works |
| `SessionReader.ReaderSeesStream` | dtach/server.go:171-256 | whatever part arrives of the frames sent to a client and of the start of a frame whose write was cut off, the reader decodes a prefix of its stream, and all frames sent if all bytes arrived |
| `SessionReader.SentFits` | dtach/server.go:171-256 | in every run all frames sent to a client are within the payload limit, so none is refused |
| `SessionOversize.OversizeBreaksDelivery` | dtach/server.go:235-256 | with a scrollback larger than a payload there is a run in which a client gets output without a snapshot |
| `SessionOversize.DeliveryIffSnapshotFits` | dtach/server.go:235-256 | delivery in order holds in every run if and only if the scrollback capacity is at most the payload limit |
| `Text.JoinSplit` | claudetool/patch.go:774-786 | joining the lines of a text gives the text back |
| `Text.SplitJoin` | claudetool/patch.go:714-714 | splitting joined lines gives the lines back |
| `PatchMatch.LineIndex` | claudetool/patch.go:774-786 | the lines and, for each, the offset at which it starts |
| `PatchMatch.CutLines` | claudetool/patch.go:755-756 | cutting from a line's offset to the end of a later line yields exactly those lines, without the final newline |
| `PatchMatch.LineNests` | claudetool/patch.go:728-742 | two lines equal in one mode are equal in every laxer mode |
| `PatchMatch.ModesNest` | claudetool/patch.go:728-742 | the four modes are nested on whole windows |
| `PatchMatch.FirstWindow` | claudetool/patch.go:744-765 | in one mode: whether a window matches, the first that does, and how many do |
| `PatchMatch.SearchModes` | claudetool/patch.go:743-771 | the first window of the strictest mode that has one, with its extent and candidate count, or no window in any mode |
| `PatchMatch.StartLine` | claudetool/patch.go:719-722 | the first line that starts at or after the cursor |
| `PatchMatch.FindMatch` | claudetool/patch.go:712-772 | a miss exactly when no window of lines at or after the cursor (at the end, for End of File) equals the pattern in any mode; a hit is the first in the strictest such mode, cuts out exactly its lines and lies at or after the cursor |
| `PatchMatch.ResultMeans` | claudetool/patch.go:712-772 | a search misses exactly when no window of lines at or after the cursor equals the pattern in any mode; a hit is the first such window of the strictest mode that has one, with their number |
| `PatchMatch.CountIsSize` | claudetool/patch.go:744-765 | the count of candidates is the size of the set of matching windows |
| `PatchMatch.LinesExact` | claudetool/patch.go:774-786 | the lines are the text cut at newlines, without an empty last line |
| `PatchModes.SpaceIsWhiteSpace` | claudetool/patch.go:728-742 | the white space that is trimmed is the set of 25 code points of Unicode's White_Space property |
| `PatchModes.ExactMeans` | claudetool/patch.go:728-742 | the strictest mode is equality |
| `PatchModes.TrailingMeans` | claudetool/patch.go:728-742 | two lines are equal up to trailing white space exactly when they share a prefix after which both have white space only |
| `PatchModes.SurroundingMeans` | claudetool/patch.go:728-742 | equal up to surrounding white space exactly when both are one core with white space on either side |
| `PatchModes.NormalizedMeans` | claudetool/patch.go:728-742 | equal in the laxest mode exactly when both have cores of one length, with white space around, whose characters are pairwise equal or of one class |
| `PatchModes.NormalizeAlike` | claudetool/patch.go:788-803 | the classes are the sets of dashes, single quotes, double quotes and spaces |
| `PatchEdit.LineOffset` | claudetool/patch.go:841-847 | succeeds exactly for line numbers of the file, with the line's offset |
| `PatchEdit.SkipAnchors` | claudetool/patch.go:576-594 | each anchor is found past the one before it, or the first that is not found is reported |
| `PatchEdit.Locate` | claudetool/patch.go:566-599 | which of the four outcomes a hunk has (hint outside, anchor missing, text missing, found where), and that a find is never before the cursor |
| `PatchEdit.ReplaceRegion` | claudetool/patch.go:603-604 | replacing text behind the cursor replaces one more region of the original, after all earlier ones |
| `PatchEdit.AppendRegion` | claudetool/patch.go:554-565 | appending replaces the empty region at the original's end |
| `PatchEdit.AdditionPads` | claudetool/patch.go:555-561 | an appended text is the hunk's text with at most a newline on either side |
| `PatchApplies.AdditionMeans` | claudetool/patch.go:555-561 | a newline comes first exactly when the file has text whose last line has none, and last exactly when the result has none |
| `PatchEdit.HitServes` | claudetool/patch.go:712-772 | the text of a hit equals the hunk's old text line by line, up to the laxest mode |
| `PatchEdit.ApplyHunk` | claudetool/patch.go:553-605 | one turn of the edit loop does what the hunk's place says and keeps the regions ordered and disjoint |
| `PatchEdit.UpdateContent` | claudetool/patch.go:551-606 | without End-of-File hunks the result is the original with one region per hunk replaced, in hunk order, disjoint, each region line by line the hunk's old text; every result is that of the hunks' turns in order, every error that of the first hunk without a place |
| `PatchApplies.PastIsNextLine` | claudetool/patch.go:586-589 | past a match is the start of the next line, or the end of the file |
| `PatchApplies.HunkApplies` | claudetool/patch.go:595-604 | a hunk without hint and anchors replaces the first window that matches in the strictest mode that has one, by its new text, and the cursor is behind it; End of File hunks too |
| `PatchApplies.HunkStops` | claudetool/patch.go:595-599 | without any such window it stops the update |
| `PatchMoves.HintMoves` | claudetool/patch.go:567-575 | a hunk with a line hint does what it does without one from the start of that line, or from the cursor if that is further |
| `PatchMoves.HintStops` | claudetool/patch.go:568-572 | a hint beyond the last line stops the update |
| `PatchMoves.AnchorMoves` | claudetool/patch.go:576-594 | a hunk with an anchor does what it does with the rest of its anchors from the line after the first window that matches the anchor in the strictest mode that has one |
| `PatchMoves.AnchorStops` | claudetool/patch.go:577-582 | an anchor that nothing matches stops the update |
| `PatchUnique.ResultUnique` | claudetool/patch.go:712-772 | a search has one result: hit or miss, and every field of the hit |
| `PatchUnique.PlaceUnique` | claudetool/patch.go:566-599 | a hunk has one outcome |
| `PatchUnique.ContentUnique` | claudetool/patch.go:551-606 | the hunks of an update lead to one content only |
| `PatchUnique.NotBoth` | claudetool/patch.go:551-611 | an update that leads to a content never stops with an error |
| `PatchGrammar.ReadSelectors` | claudetool/patch.go:907-920 | anchors and line hint are read back, the line hint written last |
| `PatchGrammar.ReadBody` | claudetool/patch.go:921-936 | context, removed and added lines are read back into old and new text |
| `PatchGrammar.ReadOp` | claudetool/patch.go:866-952 | one written operation is read back, up to the header of the next |
| `PatchGrammar.ReadOps` | claudetool/patch.go:864-957 | every list of operations, written as classified lines, is read back as itself |
| `PatchParse.LexTests` | claudetool/patch.go:875-936 | the parser's tests on a line decide its class: header, selector, added line |
| `PatchParse.ParseBody` | claudetool/patch.go:921-936 | the loop reads what the grammar says and stops where it says |
| `PatchParse.ParseSelectors` | claudetool/patch.go:907-920 | the loop over selectors agrees with the grammar, errors included |
| `PatchParse.ParseHunks` | claudetool/patch.go:905-945 | the loop over hunks agrees with the grammar, errors included |
| `PatchParse.ParseOp` | claudetool/patch.go:866-952 | one operation agrees with the grammar, errors included |
| `PatchParse.ParseApplyPatch` | claudetool/patch.go:859-958 | the parser is the grammar on the trimmed, newline-normalised text, for every text; what the grammar accepts is PatchPrint.ParsePrinted and PatchAccepted.AcceptedIsWritten |
| `Decimal.AtoiItoa` | claudetool/patch.go:960-972 | a line number in range is read back from its digits |
| `PatchPrint.ReadSelectorBack` | claudetool/patch.go:960-972 | a written selector is read back as its line number or its anchor |
| `PatchPrint.LexShow` | claudetool/patch.go:868-939 | every written line is classified as what it was written for |
| `PatchPrint.ParsePrinted` | claudetool/patch.go:859-972 | printing any well-formed operations, with either line ending on each line and any white space around, and parsing gives the same operations: old and new text, anchors, line hints, end-of-file flags |
| `PatchPrint.HunkSays` | claudetool/patch.go:921-936 | a hunk's old text is its lines printed after a space or a minus, its new text those after a space or a plus |
| `PatchAccepted.AddSays` | claudetool/patch.go:869-885 | an added file is its lines, each with a newline |
| `PatchAccepted.AcceptedIsWritten` | claudetool/patch.go:859-958 | the converse: every text the parser accepts is, up to white space around it and line endings, the two envelope lines around the written form of operations, and the result is what these mean |
| `PatchAccepted.NoEnvelopeNoPatch` | claudetool/patch.go:860-863 | a text without both envelope lines is refused, a truncated patch among them |
| `PatchChange.HunksPieces` | claudetool/patch.go:905-948 | selectors and changed lines make hunks exactly when every selector can be read and the last piece is a changed line |
| `PatchPublished.ChangeAccepted` | claudetool/patch.go:242-245 | a change of the published grammar is accepted exactly when it does not end in a context and its contexts can be read |
| `PatchPublished.NodeAccepted` | claudetool/patch.go:233-241 | one operation of the published grammar is accepted exactly when its files are named, it has a change if it is an update, and that change is accepted |
| `PatchPublished.PublishedAccepted` | claudetool/patch.go:229-245 | for every derivation of the published grammar, the parser accepts its text if and only if all its operations are so |
| `PatchPublished.MoveAloneRefused` | claudetool/patch.go:236-236 | an update that only moves a file is derived by the grammar and refused |
| `PatchCommit.UndoRestores` | claudetool/patch.go:666-682 | undoing a mutation puts its paths back to their validated state whatever happened to them since |
| `PatchCommit.FailedCommit` | claudetool/patch.go:617-645 | a mutation that fails, a half-done move included, leaves only what rollback restores |
| `PatchCommit.Workspace.Validate` | claudetool/patch.go:498-613 | a valid mutation records what its paths held and what the operation makes of them; a refused operation has no mutation at all, unless a read failed for a reason of its own |
| `PatchCommit.Judge` | claudetool/patch.go:527-607 | from what the reads returned, the mutation of the operation, or that it has none |
| `PatchCommit.Workspace.ValidateAll` | claudetool/patch.go:496-613 | all operations are validated against the same files; refusal means a read fault or an operation that has no mutation |
| `PatchCommit.StopIsHopeless` | claudetool/patch.go:596-611 | an update whose hunks stop has no mutation |
| `PatchCommit.Workspace.Commit` | claudetool/patch.go:617-637 | a mutation is applied whole, or the files are as before up to an undone move; it fails exactly by a fault or when the path it removes is not there |
| `PatchCommit.Workspace.Rollback` | claudetool/patch.go:666-682 | rollback is the inverse that the mutation recorded |
| `PatchCommit.Workspace.RollbackAll` | claudetool/patch.go:638-644 | undoing in reverse order restores the initial files even when mutations share paths |
| `PatchCommit.Workspace.CommitAll` | claudetool/patch.go:617-645 | all mutations in order, or exactly the initial files; without a fault, refused exactly when some mutation removes a path an earlier one removed |
| `PatchCommit.Workspace.Run` | claudetool/patch.go:496-645 | a refused patch leaves every file as it was; an applied one is its mutations in order, each validated against the initial files; without a fault, refusal means an operation without a mutation or a path removed twice |
| `PatchEffect.AddIffAbsent` | claudetool/patch.go:531-539 | a file can be added exactly where there is none |
| `PatchEffect.DeleteIffPresent` | claudetool/patch.go:540-545 | a file can be deleted exactly where there is one |
| `PatchEffect.UpdateIffLeads` | claudetool/patch.go:546-611 | a file can be updated exactly when it is there and its hunks lead to a content |
| `PatchEffect.OpDoes` | claudetool/patch.go:618-637 | what every path holds after an operation: nothing where a file was deleted or moved away, the new content at its target, and what it held everywhere else |
| `PatchOrder.StillCurrentIffNoClash` | claudetool/patch.go:498-645 | mutations validated together stay valid one after another if and only if each path touched again was left as it was at the start, for creates, deletes, updates and moves |
| `PatchOrder.OneByOneIffNoClash` | claudetool/patch.go:496-645 | the mutations validated together are those the operations have one after another if and only if each path touched again was left as it was at the start |
| `PatchOrder.OneByOneIffApart` | claudetool/patch.go:496-645 | for operations that change all they name, the mutations are those if and only if no path is named twice |
| `PatchOrder.SameEffectIff` | claudetool/patch.go:496-645 | the patch leaves the files its operations leave one after another if and only if, at every path, the last operation that names it leaves the same in both |
| `PatchOrder.DiffersOnlyAfterEdit` | claudetool/patch.go:496-645 | the files can differ at a path only where the last operation is an update, or a move to it, of a file that an earlier operation names |
| `PatchOrder.SameEffectIfFresh` | claudetool/patch.go:496-645 | without an update of a file that an earlier operation names, both leave the same files |
| `PatchOrder.SecondUpdateWins` | claudetool/patch.go:496-645 | a patch of two updates that append to one file leaves only the second text, where the operations one after another leave both |
| `Citations.PrefilterSound` | llm/citation_markers.go:149-159 | no byte the prefilter looks for means no marker rune |
| `Citations.Utf8Means` | llm/citation_markers.go:149-159 | the bytes searched are UTF-8 (section 3 of RFC 3629): lead byte, continuation bytes, and the code point in the free bits |
| `Citations.HasInlineCitationMarker` | llm/citation_markers.go:149-159 | true exactly when the text has a marker rune |
| `Citations.WriteWithoutMarkers` | llm/citation_markers.go:75-81 | appends the text without its marker runes |
| `Citations.FeedConcat` | llm/citation_markers.go:93-134 | feeding two pieces is feeding their concatenation |
| `Citations.FeedOk` | llm/citation_markers.go:93-134 | what is held stays within the limit and holds no delimiter |
| `Citations.FeedPlain` | llm/citation_markers.go:93-98 | the shortcut for text without markers outputs what the automaton would |
| `Citations.InlineFilter.Filter` | llm/citation_markers.go:93-134 | output and new state are those of the rune automaton from the old state |
| `Citations.InlineFilter.Finish` | llm/citation_markers.go:137-147 | an unfinished group comes out without markers |
| `Citations.StripInlineCitationMarkers` | llm/citation_markers.go:170-176 | the whole-text version is the automaton run and flushed |
| `CitationSpec.StripIsKept` | llm/citation_markers.go:71-147 | stripping deletes each START-payload-END whose payload has no START or END and fits the limit, then every remaining marker, and nothing else |
| `CitationSpec.StripShowsNoMarker` | llm/citation_markers.go:71-159 | no marker is ever output, and without a complete group no other text is lost |
| `CitationStream.SortedKeys` | llm/citation_markers.go:237-248 | the held indexes, each once, in order |
| `CitationStream.DeltasSpeak` | llm/citation_markers.go:237-248 | one delta for each index, among those given, whose held group shows some text, in their order |
| `CitationStream.StreamFilter.Filter` | llm/citation_markers.go:198-213 | a delta for one index changes and emits for that index what its filter would, although filters are created lazily and deleted when idle |
| `CitationStream.StreamFilter.Finish` | llm/citation_markers.go:217-225 | finishing an index flushes and forgets it |
| `CitationStream.StreamFilter.FinishAll` | llm/citation_markers.go:237-248 | one delta for each index whose held group shows some text, with that text and the index's content number, by output and then content number; nothing is held afterwards |
| `CitationStream.StreamState` | llm/citation_markers.go:198-248 | after any stream, each index's filter is that of the text it received since it was last finished |
| `CitationStream.StreamEqualsWhole` | llm/citation_markers.go:93-248 | for every split and every interleaving of indexes, what an index emitted and would flush equals the stripping of its whole texts |
| `CitationStream.HeldIsBounded` | llm/citation_markers.go:93-134 | at most 4096 bytes are held for an index between deltas |
| `GitDelta.ReadVarint` | gitstate/object.go:303-318 | the size varint as a uint64, wrapping included, or truncation |
| `GitDelta.VarintRoundTrip` | gitstate/object.go:303-318 | every size is read back from its encoding |
| `GitDelta.ReadField` | gitstate/object.go:332-349 | a copy's offset or size from the bytes its flags announce |
| `GitDelta.FieldRoundTrip` | gitstate/object.go:332-349 | every offset and size is read back from its announced bytes |
| `GitDelta.InstrRoundTrip` | gitstate/object.go:327-366 | every encodable instruction is read back |
| `GitDelta.RunInstrs` | gitstate/object.go:327-366 | the loop runs the instructions the bytes decode to, with each error case |
| `GitDelta.ApplyDelta` | gitstate/object.go:301-371 | header, instructions and final size check, with each error case |
| `GitDelta.RunIsDenotation` | gitstate/object.go:327-366 | a run from any position yields what the instructions held from there denote |
| `GitDelta.AcceptedDelta` | gitstate/object.go:301-371 | the instructions an accepted delta holds from its header to its end are all in range, the result is what they denote, and it has exactly the declared size |
| `GitDelta.DeltaRoundTrip` | gitstate/object.go:301-371 | encoding any instructions valid for a base and applying the delta yields what they denote |
| `GitDeltaMeans.CopiedByte` | gitstate/object.go:353-356 | each byte of a copy is the base's at the offset and as far in, wherever the copy stands among the instructions |
| `GitDeltaMeans.InsertedByte` | gitstate/object.go:357-362 | each byte of an insert is its own |
| `GitDeltaMeans.SingleCopy` | gitstate/object.go:353-356 | a copy is carried out if and only if it lies inside the base, up to its last byte |
| `GitIndex.CheckFanout` | gitstate/object.go:166-175 | accepts exactly the fanout tables that never decrease |
| `GitIndex.CompareOrder` | gitstate/object.go:194-194 | byte comparison says equal exactly for equal names, and swaps sign with its arguments |
| `GitIndex.CompareTransitive` | gitstate/object.go:194-194 | byte comparison is transitive |
| `GitIndex.BucketBounds` | gitstate/object.go:176-180 | in a well-formed index the name, if present, is in its fanout bucket |
| `GitIndex.BinaryFinds` | gitstate/object.go:189-223 | on any accepted file, what the search returns is an entry with the name, or nothing |
| `GitIndex.BinaryIsLinear` | gitstate/object.go:189-223 | on a well-formed file, the search from any bounds that hold the name returns what a linear scan does |
| `GitIndex.LinearMisses` | gitstate/object.go:188-223 | a linear scan misses exactly when no name matches |
| `GitIndex.Search` | gitstate/object.go:176-223 | the binary search finds an entry with the name, and in a well-formed index what a linear scan finds |
| `GitIndex.LookupPackOffset` | gitstate/object.go:144-224 | which files are refused; a find is an entry with that name; on a well-formed index the result, 64-bit offsets included, is the linear scan's |
| `GitIndexWriter.WrittenFound` | gitstate/object.go:144-224 | in an index written for any objects in name order, every object is found at its offset, 31-bit or 64-bit |
| `GitIndexWriter.WrittenMissing` | gitstate/object.go:144-224 | any other name is missing |
| `GitIndexWriter.WrittenWellFormed` | gitstate/object.go:157-187 | a written index is accepted, its names ascend and its fanout counts them |
| `GitOffset.ReadOffset` | gitstate/object.go:251-262 | the offset varint as a uint64, wrapping included, or truncation |
| `GitOffset.OffsetRoundTrip` | gitstate/object.go:251-262 | every offset below 2^64 is read back from its encoding, whatever follows it |
| `GitOffset.OffsetBijection` | gitstate/object.go:251-262 | every number has exactly one encoding |
| `GitChain.ReadEntry` | gitstate/object.go:232-289 | the entry at an offset: whole object, either kind of delta, or an error |
| `GitPackWriter.EntryReads` | gitstate/object.go:232-289 | an entry written anywhere in a pack, with any size, is read as what it was: an object, a delta at a distance or a delta by name, with what its data inflates to |
| `GitPackWriter.BackLinks` | gitstate/object.go:250-272 | a delta at a distance is against the entry that far before it |
| `GitPackWriter.NameLinks` | gitstate/object.go:273-287 | a delta by name is against the object of that name |
| `GitPackWriter.NamedIsPacked` | gitstate/object.go:111-140 | a name that is not loose leads to its entry in the first pack whose written index has it |
| `GitPackWriter.LooseFirst` | gitstate/object.go:69-92 | a loose object comes before any packed one, even when it cannot be read |
| `GitPackWriter.WrittenDelta` | gitstate/object.go:264-272 | behind a written delta lies an object of the base's kind with the data the delta's instructions denote |
| `GitChain.FindPack` | gitstate/object.go:120-137 | the first pack whose index lookup finds the name, with the offset found there; indexes that cannot be read are skipped |
| `GitChain.ReadObject` | gitstate/object.go:62-140 | the object behind the chain of at most the remaining depth's deltas, or an error exactly when there is none |
| `GitChain.ReadPackEntry` | gitstate/object.go:228-290 | the same for an entry of a pack |
| `GitChain.ChainLengthUnique` | gitstate/object.go:228-290 | a place resolves through one number of deltas only |
| `GitChain.ReadIffShort` | gitstate/object.go:62-290 | an object behind n deltas is read, and read right, if and only if n is at most 50 |
| `GitChain.CyclesAreRefused` | gitstate/object.go:62-290 | a chain that comes back to itself ends in an error |
| `CommitNotes.AncestorKeepsBase` | commitnotes/commitnotes.go:113-119 | the ancestor test passes exactly when the note was added on top of the base, or the result is the base itself; then no note is dropped |
| `CommitNotes.LostBaseDropsNotes` | commitnotes/commitnotes.go:113-119 | a commit the test rejects holds nothing but its own note |
| `CommitNotes.Reachable` | commitnotes/commitnotes.go:72-123 | the invariant holds after every interleaving of writers, errors, retries and deleted private refs |
| `CommitNotes.NotesAreReplay` | commitnotes/commitnotes.go:72-123 | the shared notes always equal the successful updates applied one after another in swap order |
| `CommitNotes.SuccessIsOneSwap` | commitnotes/commitnotes.go:72-84 | a call that returned success was swapped in exactly once, with its own update; any other call not at all |
| `CommitProgress.AloneWrites` | commitnotes/commitnotes.go:89-123 | from any state, a call left alone succeeds with six commands, is swapped in once and leaves the notes as they were but for its own |
| `CommitProgress.UndisturbedSucceeds` | commitnotes/commitnotes.go:89-123 | so does, with others at work, an attempt whose private ref is not deleted in use and during which nobody else swaps |
| `CommitProgress.LostSwapStartsOver` | commitnotes/commitnotes.go:72-84 | an attempt that loses its swap changes nothing, starts over with the same update and, alone from then on, succeeds |
| `CommitProgress.LostBaseGivesUp` | commitnotes/commitnotes.go:113-119 | an attempt whose commit has lost its base changes nothing and fails |
| `CommitNotes.LosesOnlyToProgress` | commitnotes/commitnotes.go:120-123 | a compare-and-swap fails only if another update was swapped in since the attempt read the ref |
| `CommitNotes.NoNoteLost` | commitnotes/commitnotes.go:65-84 | a swapped note stays until somebody writes under the same key |
| `LoopQueue.Loop.TakeQueued` | loop/loop.go:418-430 | takes the override at the head alone, else the longest run of ordinary messages |
| `LoopQueue.Loop.TakeTurn` | loop/loop.go:316-327 | the locked section at the top of the loop, on all fields |
| `LoopQueue.Loop.QueueMessages` | loop/loop.go:235-250 | appends all messages in order in one section |
| `LoopQueue.Loop.QueueTurn` | loop/loop.go:221-229 | appends one message with its runner |
| `LoopQueue.Loop.Retry` | loop/loop.go:194-203 | sets the retry flag and nothing else |
| `LoopQueue.Loop.TurnStarted` | loop/loop.go:333-335 | ends the starting phase and changes nothing else |
| `LoopQueue.Loop.WillRunTurn` | loop/loop.go:438-444 | reports queued messages, a pending retry or a turn being started |
| `LoopRun.NoLostWakeup` | loop/loop.go:194-250 | parked, with nothing in the channel and no producer mid-signal, nothing is queued or pending retry |
| `LoopRun.TakenInOrder` | loop/loop.go:301-362 | every queued message is taken exactly once, in order |
| `LoopRun.HistoryInOrder` | loop/loop.go:316-323 | unless the history is replaced it holds each taken message exactly once, in order |
| `LoopRun.OverridesRunAlone` | loop/loop.go:219-229 | a message with a runner is alone in its turn and decides its runner; a retry keeps the runner of the turn before |
| `LoopRun.GroupsStayWhole` | loop/loop.go:231-250 | messages queued by one call are never split between turns |
| `LoopRun.WillRunHasNoGap` | loop/loop.go:317-335 | WillRunTurn holds if and only if some message or retry was asked for whose turn-start callback has not returned yet |
| `LoopRun.TurnTakes` | loop/loop.go:301-362 | from any reachable queue one turn takes an override alone, or all messages up to the next override, and comes back for more |
| `LoopRun.QueueEmpties` | loop/loop.go:301-362 | left to itself the loop takes and begins everything queued |
| `Restart.LatestTurnEndedWithAgent` | db/db.go:1472-1495 | true exactly when the last real message of the generation is an agent's that ends its turn |
| `Restart.EndedSnoc` | db/db.go:1472-1495 | a new message decides the answer if it is real and changes nothing otherwise |
| `Restart.Database.ResumeWorking` | db/db.go:1537-1589 | each resumable working turn keeps working, loses its claim and gets exactly one token; the others are cleared |
| `Restart.Database.InterruptWorking` | db/db.go:1591-1627 | unfinished top-level turns are marked interrupted and nothing is left working |
| `Restart.Database.Boot` | db/db.go:1524-1633 | the marker is consumed and decides which of the two happens to every conversation |
| `RestartRun.BootOfChild` | db/db.go:1496-1506 | a child's working turn resumes on an upgrade boot exactly when it is a delegated subagent's and unfinished; otherwise it is idle, and never marked |
| `RestartRun.BootOfIdle` | db/db.go:1524-1633 | a boot leaves idle conversations alone |
| `RestartRun.ClaimExcludes` | db/query/conversations.sql:530-553 | a claimed turn cannot be claimed again, and finishing the claim gives it back as it was |
| `RestartRun.Reachable` | db/db.go:1374-1633 | the invariant holds after every run of turns, queued, injected and drained messages, claims, crashes and boots |
| `RestartRun.NeverDropped` | db/db.go:1508-1523 | in every reachable state a top-level turn under way is working or marked interrupted |
| `RestartRun.NeverLost` | db/db.go:1508-1523 | in every run, a boot keeps every message of a top-level turn under way, with the conversation working or marked interrupted |
| `RestartRun.IdleIffLooksAnswered` | db/db.go:1543-1627 | a boot leaves a working top-level conversation idle exactly when its log looks answered and, on an ordinary boot, it holds no claim |
| `RestartRun.QueueConserved` | server/convo.go:600-606 | in every run a message queued while a turn runs stays queued, across boots, until it is recorded, exactly once, or cancelled |
| `RestartRun.OrdinaryBoot` | db/db.go:1591-1627 | an ordinary boot leaves nothing working and every top-level turn under way marked |
| `RestartRun.UpgradeBoot` | db/db.go:1537-1574 | an upgrade boot keeps a working top-level turn under way with its claim cleared, and returns a token with its generation and latest user message that can claim it |
| `RestartRun.InterruptedIsContinued` | db/query/conversations.sql:519-529 | a turn interrupted by an ordinary boot works again once continued, with all its messages still to answer, and continuing twice is continuing once |
| `RestartRun.GivenUpIsContinued` | db/query/conversations.sql:555-569 | a resumed turn that fails to start is marked by its token and then continued the same way |
| `RestartRun.TokensNameWork` | db/db.go:1552-1574 | every token of a boot can claim the turn it names |
| `RestartRun.MarkerServesOnce` | db/db.go:1520-1528 | a crash after an upgrade boot is an ordinary interruption |
| `RestartRun.NewWorkOutdates` | db/db.go:1374-1398 | once another user message is recorded, the token can no longer claim |
| `RestartRun.LastUserIsMax` | db/query/conversations.sql:541-544 | the last user message's number, as Go computes it, is the maximum the claim query compares with |
| `RestartRun.BootReturnsTokenSet` | db/db.go:1568-1572 | the tokens a boot returns are those of the resumable turns, each once |
| `InterruptedTools.Scan` | db/interrupted_tool_results.go:38-59 | the open calls and the order in which calls were opened |
| `InterruptedTools.Conversation.RecordResults` | db/interrupted_tool_results.go:16-88 | one message with a failure for each call to be answered is added, for an interrupted top-level conversation with open calls only |
| `InterruptedTools.RecoveryCloses` | db/interrupted_tool_results.go:11-15 | afterwards no call is open, and recovering again writes nothing |
| `InterruptedTools.RecoveryAnswers` | db/interrupted_tool_results.go:11-88 | after recovery every call in the messages the model is shown is followed by an answer |
| `InterruptedTools.OpenIffUnanswered` | db/interrupted_tool_results.go:48-59 | a call is open if and only if some use of it is not answered after it |
| `InterruptedTools.FailuresAre` | db/interrupted_tool_results.go:62-80 | each added result names its call and is an error |
| `InterruptedTools.AnsweredOnceIffNotReused` | db/interrupted_tool_results.go:48-68 | exactly the open calls are answered; an open call exactly once if and only if it was not answered and used again before |
| `InterruptedTools.ReusedIsAnsweredTwice` | db/interrupted_tool_results.go:48-68 | the conversation that shows the double answer |
| `InterruptedTools.AnsweredInFirstUseOrder` | db/interrupted_tool_results.go:48-68 | the answers come in the order of first use if and only if no open call was answered and used again before |
| `ToolInput.ReadsJson` | llm/tool_input.go:47-86 | the automaton reads any value anywhere, reports its repeats and is ready for what follows |
| `ToolInput.AutomatonIsWalk` | llm/tool_input.go:35-87 | on the tokens of any JSON text (section 4 of RFC 8259) the automaton reports, in document order, exactly the names a tree walk finds repeated in one object, and its type assertion never fails |
| `ToolInput.RepeatedNames` | llm/tool_input.go:35-87 | the loop reports exactly those names |
| `ToolInput.RepeatsIff` | llm/tool_input.go:35-87 | a name is reported if and only if some object of the input has it twice |
| `ToolInput.CanonDecodes` | llm/tool_input.go:15-31 | the canonical text decodes to the same value: each name keeps its last value |
| `ToolInput.CanonRepeatsNone` | llm/tool_input.go:15-31 | the canonical text repeats no name anywhere |
| `ToolInput.CanonAscends` | llm/tool_input.go:15-31 | the canonical text of an object has its names in ascending order, by the first character that differs |
| `ToolInput.CanonicalToolInput` | llm/tool_input.go:15-31 | input without repeats, or that is not JSON, is returned unchanged; else the canonical text and the repeated names |
| `ToolInput.CanonicalIsFixed` | llm/tool_input.go:8-31 | the output has no repeats, decodes to the input's value, and is a fixed point |
| `ToolInput.CanonicalReports` | llm/tool_input.go:8-31 | input that is not JSON is returned with no names; else the names reported are exactly those some object has twice |
| `ToolInput.DecodeKeepsLast` | llm/tool_input.go:15-31 | the value meant here: each name of an object has its last value, decoded |
| `ToolInput.DecodeKeepsItems` | llm/tool_input.go:15-31 | and each item of an array is decoded in place |
| `SchemaRefs.FewerLeft` | client/mcp_schema.go:113-120 | the termination measure: activating a definition leaves fewer to activate |
| `SchemaRefs.Resolver.Resolve` | client/mcp_schema.go:99-135 | terminates on every graph of definitions, restores the active set, and is the expansion |
| `SchemaRefs.Resolver.ResolveKids` | client/mcp_schema.go:101-132 | the loops over children, in order |
| `SchemaMeaning.ExpandMeans` | client/mcp_schema.go:108-134 | whatever is active, the expansion has at every node the keywords of the schema its references lead to and the nearest description and default on the way, and below it the same of that schema's parts, down to cut nodes |
| `SchemaMeaning.LastNameIs` | client/mcp_schema.go:115-115 | a cut node is named by what follows the reference's last slash |
| `SchemaRefs.LeftOnlyInside` | client/mcp_schema.go:84-87 | a reference is left only inside the expansion of the definition it names, and is cut there |
| `SchemaRefs.NoneLeftIffSimple` | client/mcp_schema.go:108-134 | from any active set, nothing is left if and only if no path of definitions meets an active one or itself |
| `SchemaRefs.NoneLeftIffAcyclic` | client/mcp_schema.go:84-136 | expansion leaves no reference if and only if no definition reachable from the schema reaches itself |

## Left out

- HTTP handlers, the CLI, Slack, browser automation, video and HTML reports: input and output.
- Processes, PTYs, ssh, `bashjob` and the VM tools: foreign calls decide their behaviour.
- Row wrappers in `db` that only run one query. The queries used here are modelled as their SQL text says; a failed transaction changes nothing.
- dtach: input frames and window sizes from client to PTY, and the attach grace period; a write that fails kills its connection.
- Text is a sequence of code points: invalid UTF-8 is not modelled in patches or citations, and patch offsets count code points instead of bytes.
- `End of File` hunks: their place is modelled, but they ignore the cursor, so the region theorem is about hunk lists without them.
- PatchEdit.UpdateContent: does not model match notices or the text of error messages.
- PatchParse.ParseApplyPatch: errors carry their kind, not the quoted text of a bad header.
- PatchCommit.Workspace.Run: file modes, created directories and path aliases are not modelled; a single write or removal is all or nothing, and rollback operations succeed.
- Citation filters are held by value in the stream's map rather than by pointer; nothing in the source shares one.
- GitDelta.ApplyDelta: the base size in a delta's header is read but never compared with the base, as in the code.
- GitChain.ReadObject: zlib, file opening and the parsing of loose headers are parameters of the store; errors are not told apart.
- Commit subjects: the first line of a commit message.
- CommitNotes.Reachable: deadlines, backoff and the matching of error texts are one nondeterministic choice between retrying and giving up; an update-ref that reports failure has not moved the ref.
- RestartRun.NeverLost: an answer that ends a turn is taken to answer all messages the turn took, as the server records a message during a turn only when the next request includes it; profile overrides and transcriptions in the queue are not told apart.
- LoopRun.HistoryInOrder: `Run` itself is any sequence of history appends and replacements; which recorded messages stay out of context is not modelled, nor is `ProcessOneTurn`.
- The patch tool's JSON interface with clipboards and reindentation, whose recovery heuristics are in other packages.
- ToolInput.CanonicalIsFixed: JSON lexing and printing are a codec that reads back what it writes.
- Rendering schemas as TypeScript; a definition whose name is empty has an empty cut name, which rendering takes for none.
- The classification of provider errors for retries, and the texts of prompts.
