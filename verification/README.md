# Verification of the Firebird trace, SQL and metadata core

This project models the parts of the Firebird OpenTelemetry instrumentation that carry state from one call to the
next, and proves what those parts promise together:

* the text-Trace parser, from arbitrary wire chunks to paired start and finish records (`Trace*.dfy`, `Counter*.dfy`);
* the span runtime that turns those records into trees keyed by random tokens, races with client calls, and exports
  each finished tree (`Span*.dfy`, `PlanParts.dfy`);
* the SQL scanners behind both: the lexer and its printer, and the two framing scanners (`Sql*.dfy`);
* the bounded dependency walk and its generation-guarded cache (`Metadata*.dfy`);
* the marker tokens of an instrumented connection, its statements and its cursors (`Client*.dfy`).

Objects whose methods update fields are classes (`TraceParser.Parser`, `SpanConsumer.SpanRuntime`,
`MetadataReader.Reader`, `ClientTokens.Connection`, `Statement`, `Cursor`). Each method is proved against a function
on values, and the lemmas about those functions carry the whole-run results. Methods under a mutex are atomic steps;
the calls that other goroutines make between two steps of the span consumer are an arbitrary number of arbitrary calls
(`SpanConsumer.SpanRuntime.Clients`), and the cache results are about every interleaving of critical sections
(`MetadataCache.IsRun`).

Results to start from: `SpanPipeline.Feed`, `SpanMachine.ExportedExactlyWhenBound`, `SpanComposition.CompleteIsWhole`
and `SpanBrackets.WholeIsInside` (parser and spans together), `SpanDelivery.AnnouncedTreeIsExported` (what is
announced arrives), `SpanLog.ExportIsAuthorised`, `SpanLog.AddExport` and `SpanLog.UnmarkedExportIsWhole` (who may be
exported, once, and how much), `SpanLeaks.FrameOutlivesTree`, `TraceRuns.FeedKeepsOk`, `TraceNesting.FinishIsMatched`
(pairing), `TraceBreaks.IncompleteExactlyWhen`, `TraceStatements.SqlIsRecovered`, `SqlFraming.StatementMayEnd` (lock
step), `SqlAgreement.LexedIsComplete`, `SqlRoundTrip.DescriptionIsStable`, `SqlPrivacy.HiddenTextIsHidden`,
`MetadataWalk.Walk`, `MetadataCache.HitIsFresh`, `ClientTokens.Connection.ClosedIsSettled`.

The span consumer is proved to refine a machine on values (`SpanMachine`): its invariant `SpanConsumer.SpanRuntime.Ok`
says that a run of that machine explains everything read, kept and exported so far. Each turn of the run is determined
by its event and by the answers to its lookups, and each answer is the one that a lookup at that point of the sequence
of critical sections got.

Where the code does not do what one would expect, the exact condition is proved:

* A collected node is incomplete at export if and only if the finish that closed it carried a marker token
  (`SpanComposition.IncompleteExactlyWhenMarked`). `SpanLeakExample.MarkedFinishLeavesNodeIncomplete` is a run in
  which that happens: it starts with nothing read, a client draws and binds a token, a marker query with that token
  announces a statement, and under the statement others run, of which the last has a token in its finish only.
* A frame of an exported tree outlives the tree if and only if its start found no room in the tree and the finish of
  that start carried a marker token (`SpanLeaks.FrameOutlivesTree`). The frame stays for the rest of the run
  (`SpanLeaks.LeakIsForever`) and counts against the bound of 4096 frames. In no run more than 4095 frames are left
  over (`SpanLeaks.StaleFramesAreBounded`), and for every number up to that, and every limit on nodes, there is a run
  from the beginning that leaves so many (`SpanLeakExample.LeaksReachTheBound`). Once 4095 are left, roots are still
  followed and exported, but a tree is dropped at its first child (`SpanLeaks.OnlyRootsFromThen`,
  `SpanLeaks.ChildDropsTree`).
* An execution whose finish carried a marker token, while its start did not, is never taken off the count of its
  attachment. Until that attachment is given up, no statement of it is taken for an announced one
  (`SpanBusy.MarkedEndBlocksAttachment`).
* A counter row with one counter wider than ten columns reads back if and only if the counter on its left is blank
  (`CounterWide.WideRowRoundTrip`). With a left neighbour 5 and a counter 12345678901 it does not
  (`CounterWide.TouchingCountersAreMisread`).
* The loop of `planParts` ends if and only if the plan is valid UTF-8 (`PlanParts.HaltsExactlyOnValid`); plans that
  the parser emits always are (`TraceRuns.FeedKeepsOk`), and every plan that reaches the exporter is one of those
  (`SpanConsumer.PlansAreValid`).
* `internal/traceparse/parser.go:357-363` cannot be reached: when control gets there, SQL collection is off. The model
  has no such branch. The same holds for the inner node check of `metadata/reader.go:179-182`, which repeats the
  condition that line 174 has just ruled out.

## Model

| member | source | states |
|---|---|---|
| PlanParts.PlanParts | trace/spans.go:764-781 | on a valid plan the loops end and return the parts that the cut rule prescribes |
| PlanParts.PartsConcat | trace/spans.go:764-781 | the parts of a valid plan concatenate to the plan |
| PlanParts.PartsGood | trace/spans.go:762-781 | every part is non-empty, valid UTF-8 and at most 255 bytes, and only the last may be as short as 160 |
| PlanParts.HaltsExactlyOnValid | trace/spans.go:767-779 | the loop uses the plan up after finitely many rounds exactly when the plan is valid UTF-8 |
| SqlLexer.Lex | internal/sqltext/sql.go:224-404 | the index loop with its delimiter stack and its limit of 4096 tokens computes the token list, and fails exactly where the specification does |
| SqlLexer.ScanNumber | internal/sqltext/sql.go:319-361 | the number scan takes the longest number and fails on a malformed one and on one that runs into a word |
| SqlFraming.LexicallyComplete | internal/sqltext/framing.go:11-116 | decides whether every literal, comment and bracket is closed, and visits the token boundaries in order |
| SqlFraming.StatementMayEnd | internal/sqltext/framing.go:121-215 | ends on every input, visits exactly the boundaries of the first scanner, and is false exactly when the text is open or its last token needs more |
| SqlFraming.SkipBlock | internal/sqltext/framing.go:135-151 | the nested-comment loop without bounds checks stops inside the text and where the comment ends, given that the first scanner accepted it |
| SqlFraming.SkipItem | internal/sqltext/framing.go:127-207 | every unchecked loop and index search of one round stays inside the text and stops at the same place as the first scanner |
| SqlAgreement.LexedIsClosed | internal/sqltext/sql.go:224-404 | a text the lexer accepts from a nesting state is closed for framing from the same state, although the two split numbers and literals differently |
| SqlAgreement.LexedIsComplete | internal/sqltext/framing.go:11-116 | whatever the lexer accepts within the input limit is lexically complete |
| SqlRoundTrip.TokensOfPrinted | internal/sqltext/sql.go:98-102 | lexing the space-joined tokens of a lexed text gives the same tokens |
| SqlRoundTrip.DescriptionIsStable | internal/sqltext/sql.go:76-188 | a description with a text is a fixed point: analysing its text under the default limits returns the whole description |
| SqlPrivacy.LexHidden | internal/sqltext/sql.go:237-318 | at a boundary, a literal or comment is one item that shows nothing of its body |
| SqlLocality.LexLocal | internal/sqltext/sql.go:224-404 | an item that ends before two different continuations, or before one of two that start alike, is the same item in front of both |
| SqlPrivacy.LexReplaced | internal/sqltext/sql.go:237-318 | replacing a literal by any literal or a comment by any comment, also one that ends the text, leaves the token list unchanged while both texts read what stands before it to its end |
| SqlPrivacy.HiddenTextIsHidden | internal/sqltext/sql.go:76-188 | two such texts have the same description while both are within the limits, whatever limits are given |
| SqlDescribe.AnalyzeSql | internal/sqltext/sql.go:76-188 | the loops of the analysis compute the description of the token list, with its limits, its dialect rule and its error paths |
| SqlNames.TargetIsAfterFirstFrom | internal/sqltext/sql.go:144-174 | the target of a SELECT or DELETE is the token after the first FROM where as many parentheses were closed as opened since the operation; there is none exactly when there is no such FROM or a derived table follows it |
| SqlNames.StartIsFirstOperation | internal/sqltext/sql.go:111-129 | after common table expressions, the statement is the first operation word with all parentheses closed |
| SqlNames.NameIsDotted | internal/sqltext/sql.go:196-210 | an object name is the longest run of identifiers with dots between them, spelled as they are, and nothing when that is over 256 bytes |
| SqlNames.DescriptionNamesOnlyIdentifiers | internal/sqltext/sql.go:130-187 | beside its text a description shows one of a fixed set of operation words and at most one dotted name of the statement |
| SqlNames.NoQuoteLeaks | internal/sqltext/sql.go:76-188 | with an unknown dialect, no part of a description shows a double quote |
| CounterRow.Parse | internal/traceparse/parser.go:420-474 | the recursive search appends every reading of the row, fixed columns before wide ones, to the candidates |
| CounterRow.TableCounterRow | internal/traceparse/parser.go:413-488 | returns the first reading with the shortest name, and nothing when no reading is accepted |
| CounterPrint.NarrowRowRoundTrip | internal/traceparse/parser.go:413-488 | a padded name and eight right-aligned counters below ten to the ten are read back exactly |
| CounterWide.WideRowMisread | internal/traceparse/parser.go:461-473 | a counter wider than its column that touches the counter on its left is never read back |
| CounterWide.WideRowRoundTrip | internal/traceparse/parser.go:413-488 | with one wider counter, the row is read back exactly when the counter on its left is blank or there is none |
| CounterWide.TouchingCountersAreMisread | internal/traceparse/parser.go:413-488 | five natural reads beside 12345678901 indexed ones are not read back, whatever the name |
| TracePairing.PairKeepsSafe | internal/traceparse/parser.go:515-570 | one record keeps everything: numbering, matching, bounded stacks, incompleteness after a break, and nesting |
| TracePairing.AppendGap | internal/traceparse/parser.go:72-81 | a gap forgets every stack and keeps the history well paired |
| TracePairing.HistoryPrefix | internal/traceparse/parser.go:515-570 | what the parser promises about its output holds of every part of it that a reader has seen |
| TraceNesting.RunTracks | internal/traceparse/parser.go:515-570 | over well-nested scopes within the bounds, the stacks are exactly the open starts as bracket matching defines them by counting |
| TraceNesting.StartIsNumbered | internal/traceparse/parser.go:533-546 | a start is numbered by its rank and has the innermost open start of its scope as its parent, with no other change |
| TraceNesting.FinishIsMatched | internal/traceparse/parser.go:547-570 | a finish carries the number and the parent of the start that bracket matching gives it, with no other change |
| TraceParser.Parser.Gap | internal/traceparse/parser.go:72-81 | a gap clears what is being read and all stacks and marks everything later |
| TraceParser.Parser.PairRecord | internal/traceparse/parser.go:515-570 | pushes, pops or gives up the stack of the scope as the pairing function says |
| TraceParser.Parser.Finish | internal/traceparse/parser.go:489-571 | the current record leaves, described and paired |
| TraceParser.Parser.StageSql | internal/traceparse/parser.go:169-176 | stages a line of SQL within both limits or reports a gap |
| TraceParser.Parser.StartRecord | internal/traceparse/parser.go:182-231 | a header closes the record before it and opens one, or reports a gap for an unknown event or a bad time |
| TraceParser.Parser.Consume | internal/traceparse/parser.go:160-365 | one complete line is one step of the line machine |
| TraceParser.Parser.Feed | internal/traceparse/parser.go:83-111 | a chunk is handled as the specification says, the history grows by what is returned, and every promise is kept |
| TraceParser.Parser.Flush | internal/traceparse/parser.go:112-133 | the end of the stream releases what is open, with every promise kept |
| TraceParser.Parser.FlushFinished | internal/traceparse/parser.go:138-159 | an idle stream releases a finished record, with every promise kept |
| TraceRuns.ConsumeKeepsOk | internal/traceparse/parser.go:160-365 | every line keeps the staged SQL within the record bound, the pairing and the validity of plans |
| TraceRuns.FeedKeepsOk | internal/traceparse/parser.go:83-111 | so does every chunk, whatever bytes it holds |
| TraceRuns.FlushKeepsOk | internal/traceparse/parser.go:112-133 | so does the end of the stream |
| TraceRuns.FlushFinishedKeepsOk | internal/traceparse/parser.go:138-159 | so does an idle stream |
| TraceRuns.SafeLineIsValid | internal/traceparse/parser.go:370-395 | a plan line that is kept as it is is valid UTF-8 |
| TraceRuns.CountersAreRead | internal/traceparse/parser.go:335-353 | each counter of a record is what its performance line says last about it, and otherwise unchanged |
| TraceChunks.FeedIsBytewise | internal/traceparse/parser.go:83-111 | feeding a chunk is feeding its bytes one by one |
| TraceChunks.FeedInChunks | internal/traceparse/parser.go:83-111 | feeding two chunks gives the events and the state of feeding their concatenation |
| TraceChunks.FeedIsLinewise | internal/traceparse/parser.go:83-111 | feeding lines is folding the line machine over them, with one gap for each line over the limit |
| TraceStatements.StagedLine | internal/traceparse/parser.go:160-177 | inside an open literal, comment or bracket a line is staged, whatever it looks like |
| TraceStatements.LinesAreStaged | internal/traceparse/parser.go:160-177 | such lines are staged exactly and emit nothing |
| TraceStatements.SqlIsRecovered | internal/traceparse/parser.go:160-232 | the record leaves with exactly its SQL lines, ended by any line that may end them, whatever plan, counter, parameter and table lines follow before the next header; the next record starts without a statement |
| TraceRecords.IdentityIsReadOnce | internal/traceparse/parser.go:241-269 | over all lines of a record, attachment and transaction are set at most once and in this order, and the line that gives the statement or the name is the last identity line |
| TraceRecords.FeedIsSourced | internal/traceparse/parser.go:302-334 | whatever is fed, an explained plan that leaves the parser is its root line and lines that were found safe one by one, and each of at most 64 tables is a counter row |
| TraceRecords.FlushIsSourced | internal/traceparse/parser.go:112-133 | so it is at the end of the stream |
| TraceRecords.ReleaseIsSourced | internal/traceparse/parser.go:138-159 | so it is when an idle stream releases a record |
| TraceRecords.RecordTextIsStable | internal/traceparse/parser.go:489-514 | the text of a record is a fixed point of the analysis and shows no double quote, and the name of a statement is the summary of that text |
| TraceBreaks.IncompleteExactlyWhen | internal/traceparse/parser.go:489-571 | a record leaves incomplete exactly when one of its lines made it so, its statement was cut short or cannot be read or shown, or it is an execution and something broke before it, it is unmatched, or its start overflows the stacks |
| TraceBreaks.FeedRemembers | internal/traceparse/parser.go:83-111 | whatever is fed, the flag that marks later records is set exactly when a gap or an unmatched execution has left the parser |
| TraceBreaks.FlushRemembers | internal/traceparse/parser.go:112-133 | so it is after the end of the stream |
| TraceBreaks.ReleaseRemembers | internal/traceparse/parser.go:138-159 | so it is after an idle stream |
| TraceBreaks.NewRecordRecalls | internal/traceparse/parser.go:224 | a record begins as incomplete exactly when something broke before it |
| SpanRegistry.RegistrationsAreBounded | trace/spans.go:150-175 | over every order of critical sections, no more scopes than the bound are registered at once |
| SpanRegistry.ScopesAreJustified | trace/spans.go:150-223 | a registered scope is one a client registered and nobody withdrew since, with the parent bound last |
| SpanRegistry.GoneForGood | trace/spans.go:208-223 | a drawn token that is not registered never is again |
| SpanRegistry.DiscardIsFinal | trace/spans.go:208-223 | after a discard no lookup finds the token |
| SpanRegistry.EndIsFinal | trace/spans.go:362-379 | once the consumer has ended, registrations stay empty and no token is issued |
| SpanFamily.FamilyIsClosed | trace/spans.go:409-447 | the unmarked starts under a root begin with the root, are closed under parents and are numbered upwards |
| SpanFamily.FamilyEndsBeforeRoot | internal/traceparse/parser.go:547-570 | when a root has finished, so has everything under it |
| SpanFamily.FamilySharesScope | internal/traceparse/parser.go:533-546 | everything under a root runs in the root's attachment and transaction |
| SpanLinks.StartedKeeps | trace/spans.go:409-447 | whatever its lookups answer, a start keeps every live tree equal to the first members of its root's family |
| SpanLinks.FinishedKeeps | trace/spans.go:448-471 | a finish completes its node and keeps the same link for every tree |
| SpanLinks.FlushedKeeps | trace/spans.go:333-347 | a flush keeps the link for every tree that stays, and strands no start that is still open |
| SpanLinks.ClearedAttachmentKeeps | trace/spans.go:312-332 | giving one attachment up keeps the link for all other trees |
| SpanTally.StartedTally | trace/spans.go:418-447 | a start keeps the count of each attachment equal to the number of its executions that are recorded as active, and at most 4096 frames |
| SpanTally.FinishedTally | trace/spans.go:449-460 | so does a finish; no count is ever zero or negative |
| SpanTally.ClearedAttachmentTally | trace/spans.go:312-332 | so does giving an attachment up |
| SpanTally.AnnouncedTally | trace/spans.go:393-401 | announcements never exceed the bound |
| SpanComposition.CompleteIsWhole | trace/spans.go:333-347 | a tree to be exported is a top-level statement with the first unmarked starts under it, all in its scope, closed under parents, each of them finished |
| SpanComposition.IncompleteExactlyWhenMarked | trace/spans.go:384-402 | a node of such a tree is incomplete exactly when its own finish carried a marker token |
| SpanBrackets.FamilyIsInside | trace/spans.go:409-447 | for records that are well nested within the bounds, the unmarked starts under a root are the starts inside its brackets with no marker between, in order |
| SpanBrackets.WholeIsInside | trace/spans.go:333-347 | for such records an exported tree belongs to a statement outside all brackets, its nodes are the first of those starts, and each node has its own closing bracket unless that carried a marker token |
| SpanPlay.TurnKeepsLinked | trace/spans.go:291-472 | every turn of the machine keeps every followed tree equal to the first members of its root's family |
| SpanLeakExample.MarkedFinishLeavesNodeIncomplete | trace/spans.go:384-402 | from the first record on, a run that exports a complete tree of any number of nodes from two to the limit, the last of which has no finish |
| SpanLeaks.FrameOutlivesTree | trace/spans.go:338-345 | after an export, a frame of the tree is left for a number exactly when its start was past the limit on nodes and its finish carried a marker token; the frames of other trees are untouched |
| SpanLeaks.LeakIsForever | trace/spans.go:291-472 | over every run, a frame whose tree is not followed any more stays |
| SpanLeaks.StaleFramesAreBounded | trace/spans.go:429-432 | over every run at most 4095 frames belong to trees that are not followed any more |
| SpanLeaks.OnlyRootsFromThen | trace/spans.go:429-432 | once 4095 such frames are left, no tree grows any more and every tree followed later has exactly one node |
| SpanLeaks.ChildDropsTree | trace/spans.go:425-432 | from then on a start under a followed tree makes the consumer drop that tree |
| SpanLeaks.RootStillOpens | trace/spans.go:411-447 | an announced start whose scope is found opens a tree while there is room for one frame |
| SpanLeakExample.LeaksReachTheBound | trace/spans.go:384-447 | for every limit on nodes and every number up to 4095, a run from the first record on that leaves so many such frames and follows no tree |
| SpanBusy.RunIsCounted | trace/spans.go:418-460 | over every run the count of an attachment is the number of its executions that are recorded as active, no count is zero, and frames and announcements keep their bounds |
| SpanBusy.MarkedEndBlocksAttachment | trace/spans.go:384-411 | after the marked finish of an active execution no start of its attachment is taken for an announced statement, until the attachment is given up |
| SpanMachine.NoTreeIsLost | trace/spans.go:291-472 | over one turn of the loop, a tree is followed on or its token is withdrawn |
| SpanMachine.FlushLeavesNothingBound | trace/spans.go:333-347 | after a flush, exactly the trees are left whose lookup found a scope and that were not both complete and bound |
| SpanMachine.FlushSends | trace/spans.go:338-345 | a flush sends the tree and the scope of exactly those visits that found the tree complete and bound |
| SpanMachine.ExportedExactlyWhenBound | trace/spans.go:333-347 | over a whole run, what has been exported is exactly what some flush found complete and bound |
| SpanDelivery.AnnouncedTreeIsExported | trace/spans.go:333-471 | over a run, an announced statement whose every lookup finds its scope, whose attachment is not given up and whose frames find room is exported, at the latest by the first flush from its end on that finds the scope bound |
| SpanLog.ExportIsAuthorised | trace/spans.go:333-347 | an exported token was registered, not withdrawn since, not expired, and bound last to a valid sampled span |
| SpanLog.AddExport | trace/spans.go:333-347 | no token is exported twice |
| SpanConsumer.SpanRuntime.constructor | trace/spans.go:433-436 | a tree holds at most 128 nodes, or 512 when fast repeats are collapsed; nothing has been read |
| SpanConsumer.SpanRuntime.Begin | trace/spans.go:119-126 | the end of a successful start, once |
| SpanConsumer.SpanRuntime.Register | trace/spans.go:150-175 | issues a token exactly when the span may be sampled, the runtime runs and there is room |
| SpanConsumer.SpanRuntime.MarkerComplete | trace/spans.go:179-186 | notes the time in the scope |
| SpanConsumer.SpanRuntime.Bind | trace/spans.go:190-205 | binds a valid sampled span and withdraws the scope for any other |
| SpanConsumer.SpanRuntime.Discard | trace/spans.go:208-212 | withdraws the scope |
| SpanConsumer.SpanRuntime.Shutdown | trace/spans.go:225-231 | no scope is registered any more |
| SpanConsumer.SpanRuntime.Find | trace/spans.go:214-223 | finds an unexpired scope, after whatever clients did before |
| SpanConsumer.SpanRuntime.Drop | trace/spans.go:291-300 | deletes a tree and all its frames, and withdraws its token |
| SpanConsumer.SpanRuntime.Invalidate | trace/spans.go:301-311 | gives every tree and announcement up, and withdraws the token of each |
| SpanConsumer.SpanRuntime.InvalidateAttachment | trace/spans.go:312-332 | gives up and withdraws what runs on one attachment or was announced for it, and everything when the attachment is unknown |
| SpanConsumer.SpanRuntime.ExportTree | trace/spans.go:338-345 | exports a whole tree on an authorised lookup, records it, and withdraws its token |
| SpanConsumer.SpanRuntime.FlushTree | trace/spans.go:334-346 | asks for the token once; a tree without a scope is dropped and withdrawn, one that is complete and bound adds exactly one export of itself and is withdrawn, any other stays |
| SpanConsumer.SpanRuntime.Flush | trace/spans.go:333-347 | does so for every tree that is followed, once each, and the exports grow by exactly what that sends |
| SpanConsumer.SpanRuntime.Announce | trace/spans.go:393-401 | a finished marker query announces the next statement of its attachment |
| SpanConsumer.SpanRuntime.StartEvent | trace/spans.go:409-447 | a start opens the announced tree, joins its parent's, or is left alone |
| SpanConsumer.SpanRuntime.FinishEvent | trace/spans.go:448-468 | a finish updates the counts, the frame and its node |
| SpanConsumer.SpanRuntime.TakeEvent | trace/spans.go:361-472 | every event of the history is one turn of the machine for the answers its lookups got, with a flush exactly when a root ends, and keeps all promises about trees, counts, bounds and exports |
| SpanConsumer.SpanRuntime.Wake | trace/spans.go:352-353 | a scope that was bound makes one turn that is a flush |
| SpanConsumer.SpanRuntime.Tick | trace/spans.go:354-360 | the ticker makes one turn: a flush, after which an announcement is forgotten exactly when its token is not found |
| SpanConsumer.SpanRuntime.StreamEnd | trace/spans.go:362-379 | the end of the stream makes one last turn: a flush, after which the rest is dropped and withdrawn and no registration is left |
| SpanPipeline.Feed | trace/runtime.go:240-243 | a chunk goes through parser and consumer: one turn of the machine for each event it completes, in order, with all promises of both kept, whatever clients do meanwhile |
| SpanPipeline.Idle | trace/runtime.go:227-232 | so does an idle period |
| SpanPipeline.End | trace/runtime.go:233-239 | so does the end of the stream, which makes a last turn that leaves no tree and no registration |
| SpanGroups.RepeatedLeaves | trace/spans.go:627-691 | selects at most eight groups of at least three fast leaves, in order, such that no group that comes earlier is left out |
| SpanGroups.SortGroups | trace/spans.go:673-681 | sorts the groups strictly by count, name and parent, whatever order they come in |
| SpanGroups.CollapsingOrphansNobody | trace/spans.go:632-666 | a collapsed node is a fast leaf below the root and has no children |
| SpanGroups.CountsSumToCollapsed | trace/spans.go:685-690 | the counts of the selected groups sum to the number of collapsed nodes |
| SpanExport.FindReasons | trace/spans.go:477-503 | the reasons and the number of nodes that may be shown |
| SpanExport.SendTree | trace/spans.go:476-615 | sends what the job prescribes, node by node; every plan it cuts is valid |
| SpanExport.ExportedForest | trace/spans.go:504-528 | sends nothing, or the root first and at most 127 more spans, each under the span of the execution it names as its parent |
| SpanExport.ExactlyTheFirstAreSent | trace/spans.go:506-528 | the spans are those of the first 128 nodes that may be shown and whose parents are shown |
| SpanExport.CollapsingHidesOnlyItself | trace/spans.go:506-528 | in a closed tree, collapsing hides the collapsed nodes and no other whose times, and those of all it runs under, can be read |
| SpanExport.SpansTellTheTruth | trace/spans.go:555-613 | a span carries its execution's plan in full, its duration, its groups, and a begin shifted by the same amount as every other |
| SpanLog.UnmarkedExportIsWhole | trace/spans.go:477-503 | an export not marked incomplete holds the whole family of its root |
| SpanLog.UnmarkedExportIsComplete | trace/spans.go:477-528 | such an export sends every member that is not collapsed, if its times and those of all it runs under can be read |
| MetadataWalk.VisitRow | metadata/reader.go:157-188 | one dependency row adds its edge, its object and a package body, or marks the graph as truncated |
| MetadataWalk.VisitObject | metadata/reader.go:141-198 | the rows of one object keep the walk sound and leave the object fully listed or the graph truncated |
| MetadataWalk.Walk | metadata/reader.go:110-203 | the graph is sound and within its limits, no object is queried twice, and unless a query or the commit fails it is truncated exactly when what can be reached does not fit: too many objects, edges or rows of one object, or an object at the depth limit by shortest distance. A graph that is not truncated holds exactly what is reachable and every edge of it |
| MetadataGraph.Frontier | metadata/reader.go:130-190 | a set of objects that is closed, apart from members waiting no nearer than a distance, holds everything within that distance of the root |
| MetadataGraph.ClosedHoldsReachable | metadata/reader.go:131-200 | a set closed under successors holds everything reachable from its root |
| MetadataCache.CachedIsCurrent | metadata/reader.go:204-225 | over every interleaving, each cached graph came from a read begun after the latest invalidation, under the present version |
| MetadataCache.CacheIsBounded | metadata/reader.go:213-223 | the cache never holds more than its bound |
| MetadataCache.HitIsFresh | metadata/reader.go:97-104 | a hit returns the graph of a read of the same object that no invalidation has overtaken and that is not too old |
| MetadataReader.Clone | metadata/reader.go:87-91 | a copy is equal and shares no memory |
| MetadataReader.Reader.Invalidate | metadata/reader.go:76-86 | moves to the version and forgets every graph, or refuses a long version and changes nothing |
| MetadataReader.Reader.BeginRead | metadata/reader.go:92-105 | refuses a bad name, returns a private copy on a hit, or remembers key and generation |
| MetadataReader.Reader.FinishRead | metadata/reader.go:106-225 | walks and hands the graph to the caller; exactly after a walk that was made and committed it caches a copy no caller can reach, which is a step of a run |
| MetadataReader.CallerWrites | metadata/reader.go:87-104 | writing to a graph a read returned changes no cached graph and no later hit |
| MetadataReader.Reader.Evict | metadata/reader.go:207-222 | deletes the expired entries, and the one that expires first when there is still no room |
| ClientLedger.BoundIsReleased | server_scope.go:19-184 | a bound token has no holder and was bound once |
| ClientLedger.NobodyHolds | server_scope.go:19-184 | with no holder left, every token was bound or discarded |
| ClientTokens.Connection.ServerScope | server_scope.go:19-100 | gives the operation a token exactly when no cursor is open and the marker was confirmed; a token that waited is given up |
| ClientTokens.Connection.RunMarker | server_scope.go:53-92 | the marker counts as confirmed exactly when every step of its query succeeded |
| ClientTokens.Connection.PreserveFallback | server_scope.go:102-116 | a skipped call leaves its token waiting for the same SQL |
| ClientTokens.Connection.TakeFallback | server_scope.go:118-133 | a waiting token is handed out for the same SQL and discarded for any other |
| ClientTokens.Connection.DiscardFallbackToken | server_scope.go:135-147 | nothing waits any more |
| ClientTokens.Connection.Finish | telemetry.go:100-150 | the token of an operation is bound exactly when it succeeded under a recording span, and discarded otherwise |
| ClientTokens.Connection.QueryResult | server_scope.go:175-184 | a returned result set counts as open and takes over the profiling session; without one the session ends at once |
| ClientTokens.Connection.ProfileStart | profile_scope.go:11-26 | an enabled operation owns the session the profiler started for it |
| ClientTokens.Connection.ProfileFinish | profile_scope.go:28-41 | the session of an operation is ended, once |
| ClientTokens.Connection.Prepare | client.go:39-55 | a prepared statement takes over the token that waits for its SQL |
| ClientTokens.Connection.Exec | client.go:80-101 | an execution leaves a token waiting only when the driver skipped it |
| ClientTokens.Connection.Query | client.go:102-119 | so does a query, which may also open a cursor |
| ClientTokens.Connection.Close | client.go:29-32 | nothing waits after closing |
| ClientTokens.Connection.ClosedIsSettled | client.go:29-32 | with the connection and its statements closed, every token was bound or discarded, and none bound twice |
| ClientTokens.Statement.ServerScope | server_scope.go:149-163 | the token the statement holds moves to the operation or is discarded |
| ClientTokens.Statement.Exec | client.go:154-171 | an execution keeps the ledger linear and leaves no token with the statement |
| ClientTokens.Statement.Query | client.go:172-185 | so does a query |
| ClientTokens.Statement.Close | client.go:149-152 | a closed statement holds nothing |
| ClientTokens.Connection.Release | server_scope.go:177-182 | the count stays the number of open result sets, never negative, and the profiling session ends |
| ClientTokens.Connection.ClosedIsProfiled | rows.go:41-75 | with all result sets closed, every profiling session that was started was ended exactly once |
| ClientTokens.Cursor.Close | rows.go:128-175 | however often it is closed, a result set is released exactly once |

## Left out

- Regular expressions and small line recognisers (headers, attachment, transaction and statement lines, parameter metadata, trigger names, row counts, the performance line, the column header) are given functions of the model's `Grammar`; `scopeMarker` yields any token.
- Unicode classes, upper-casing, case folding and SHA-256 are given functions (`Platform`). The facts about the Unicode tables that the theorems need are the precondition `Lawful`; `SqlScan.AsciiIsLawful` shows that it can be met.
- The byte loops of the SQL scanners are modelled on rune indices of the decoded text. `Utf8.DecodeOfEncode` and `Utf8.EncodeOfDecode` relate valid byte strings and texts; that a byte loop stops at the corresponding places is not proved.
- Sequence numbers are unbounded; the wrap-around of the 64-bit counter is not modelled.
- Trees and nodes of the span consumer are values in a growing heap, named by their position, and not addresses; the maps that hold them are fields of the runtime.
- Channels and timers of the collector: events are assumed to reach the span consumer in order and without loss, so the discarding paths of its queue are not modelled. Tokens are assumed to be drawn from a source that never repeats (`SpanConsumer.TokensNeverRunOut` shows that there are such sources).
- OpenTelemetry spans are a valid and a sampled flag; attributes, metrics and SDK sampling are not modelled, apart from a span's parent, name, times, plan parts, groups and completeness.
- `normalizePlan`, `classifyPlan` and the fingerprint of a plan are not modelled.
- Durations of repeated calls are integers in nanoseconds; the code sums floating-point milliseconds.
- Errors while opening the transaction, reading a single dependency row or closing the row set are not modelled; a failing query and a failing commit are.
- The limits that the constructors of the cache and the span runtime check are preconditions here; their validation is left out.
- Cancellation signals of cursors, the telemetry a cursor records and the mark that a failing profiler leaves on a connection are not modelled. Finishing and cancelling a profiling session both count as ending it.
- Registration, capability switches, DSN handling, the Services API, the profiler and the monitoring reader are left out: they hold no state that these properties depend on.
