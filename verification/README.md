# Verified model of a coding assistant's server core

The server takes documents and repositories in, cuts them into chunks, fits chunks and dialogue into a
token budget, runs a tool loop against a language model, and keeps shared state (request slots, a job
directory, tool-list caches, rate limiters, a repository index) consistent under concurrency. This project
models the algorithms behind that and proves what they guarantee.

Loops and in-place updates of the source are methods and classes with loop invariants, each proved equal
to a specification function; lemmas about the specification functions carry the properties. Concurrency is
modelled as state machines whose steps may be interleaved in any order. Text is a sequence of runes.

| component | modules |
|---|---|
| text: runes, trimming, splitting on separators | `Options`, `Runes`, `Decimal` |
| document to chunks | `Normalize`, `TextLines`, `PdfPages`, `PagePlaces`, `Splitter`, `Sentences`, `SentencePacking`, `Chunker`, `Overlap`, `TextSplitter`, `PlainChunks`, `MarkdownOutline`, `MarkdownLines` |
| tool loop | `JsonScanner`, `ToolNames`, `ToolResolution`, `ToolCalls`, `CallFields`, `AgentLoop`, `ToolPartition`, `PartitionJoin`, `AgentHistory` |
| runner messages | `Chat`, `RunnerMessages` |
| budgets | `Tokens`, `Trim`, `Shrink`, `ShrinkResult`, `Budget`, `BudgetLedger`, `PromptOrder` |
| shared state | `RequestQueue`, `JobStore`, `SlotProtocol`, `JobResults`, `SlotOrphans`, `SlotStarvation`, `SlotDrain`, `ToolsCache`, `ListCache`, `CacheHits`, `TokenBucket`, `UploadLimiter`, `UploadBounds`, `UploadRuns`, `UploadExact` |
| index, embeddings, patches | `IndexSplit`, `SegmentTexts`, `ChunkIndex`, `RepoIndex`, `ImportGraph`, `EmbedBatch`, `MdPatch` |

`dafny verify dfyconfig.toml` checks the whole project.

## Where the code falls short of what one would expect

The model follows the code. Each point below has a theorem that says exactly when the expected property
holds, or a concrete input on which it fails.

- Page labels: when the first PDF page has no text but a later one has, trimming the joined text shifts
  every offset against the page bounds. `TextSplitter.ExtractedLabelsRightIff` gives the exact condition on the
  raw pages for paragraphs, `TextSplitter.ExtractedChunkPagesIff` for the page ranges of chunks.
- Heading paths: the stack keeps the first level - 1 headings, not those that are less deep, so a document that
  skips a level files headings under their siblings (`MarkdownOutline.SkippedLevels`).
  `MarkdownOutline.DocumentPathsRightIff` says exactly when the paths are those of the open headings.
- The shrink loop does not always stop: a cut message gets a notice of 54 runes back, so it settles at 213 to
  216 runes. `Shrink.StopsIff` says exactly on which histories the loop stops. `Shrink.ShrinkMessages` is
  the loop itself and can only be given a termination proof under that condition (`CanStop`, which looks at the
  input alone), hence its precondition; outside it `Shrink.RunsForever` holds.
- The prompt budget measures a block with a blank title without the title that is made up when it is printed.
  `Budget.FitsIff`: the budget holds for all calls with at most k such blocks exactly up to k = 40;
  `Budget.UntitledOverrun` overruns it with 41.
- Flattened tool metadata can be mistaken for content: `RunnerMessages.ToolRoundTripIff` and
  `RunnerMessages.CallsRoundTripIff` give the exact conditions. In particular the body matters when a tool
  message has an id but no name, and text that repeats the block prefix is cut in the wrong place.
- The documentation of the substring patch promises a single occurrence; occurrences that overlap the first are
  not noticed (`MdPatch.ReplaceAcceptsIff`, `MdPatch.OverlapPasses`).
- The upload limiter reads the clock before it waits for its lock, so checks need not be served in the order of their
  readings. Two windows can always meet inside one minute: it can hold 159 uploads. That is the bound for all runs
  exactly when readings come in the order they are served (`UploadExact.WithinIff`); with a reading one tick late a
  window that pruning has forgotten makes it 239, with readings up to d < 60 s late it is at most Windows(d) * 80 - 1,
  Windows(d) being 2 + (60 s + d - 2) / (60 s - d) rounded down in ticks (`UploadBounds.MinuteBound`), which is exact up to 20 s (`UploadExact.MinuteLeast`), and from 60 s on there is no bound
  (`UploadExact.BoundedIff`). While the table never grows to the pruning size, `UploadExact.SmallLeast` gives the least
  bound for every d: 159 up to one tick, 238 from two ticks on. Pruning shows in no answer, in all runs, exactly when
  readings are in order (`UploadExact.PruningIsInvisibleIff`).
- The upload that opens a window is never checked against the byte limit (`UploadLimiter.WindowBytesIff`). With readings
  in order a minute is held to twice the byte limit exactly when no upload alone is larger than the limit, and to no
  less (`UploadExact.BytesWithinIff`).
- A list fetched before an invalidation can be stored and served after it; `ListCache.StaleAfterInvalidationIff`
  gives the exact condition for fetches that had finished, `ListCache.StaleFetchIff` for those that had begun.
- A job directory that cannot be read counts as empty, so the job limit can be exceeded
  (`SlotProtocol.UnreadableDirectoryOverrun`). `SlotProtocol.JobsBoundedIff` says exactly which enqueues do it.
- A job needs a second slot for its own chat call, and jobs alone can hold all slots. Let room be the larger of the
  pending jobs a process finds when it starts and the job limit less the running ones it finds. While the directory
  can be read for each count, n jobs can come to be executed at once exactly when there are n slots and room for n
  (`SlotStarvation.MostBusyIff`), so all slots can be taken exactly when the capacity is no larger than the room
  (`SlotStarvation.AllBusyIff`, for an empty directory `SlotStarvation.FreshBusyIff`), and then no chat call gets in
  (`SlotStarvation.AllBusyStarves`). Some job gets its second slot exactly when there are two slots and room for a job
  (`SlotStarvation.NestedSlotIff`).
- A running record that no worker executes is never touched again and counts against the limit for ever
  (`SlotOrphans.OrphanForever`). A restart leaves such records, and a step does exactly when it is a claim whose write
  landed with an error, or a completion whose result cannot be encoded or whose record is not written
  (`SlotOrphans.NewOrphanIff`). No job is ever taken again exactly when they fill the limit (`SlotDrain.ShutForeverIff`).
- The counter of completed jobs runs ahead of the completed records exactly when the record of a completion was not
  written (`SlotProtocol.CompletedAreCounted`).
- The graph of the repository index forgets and keeps too much. An upsert replaces the imports of a path and removes no
  importer; removing a chunk drops all imports of its path, also those of chunks that stay (`ImportGraph.StaleByUpsert`,
  `ImportGraph.StaleByRemoval`). A path stays the importer of exactly its imports through the steps of a sync exactly
  when each upsert and each removal mentions all that the path imports by then, and it is so after the sync exactly
  when no import was passed over for good (`ImportGraph.SyncExactIff`). The imports of a path are those of its last upsert only
  (`ImportGraph.SyncImportsAreLast`), and a split chunk leaves none exactly when a
  later piece of it is indexed (`ImportGraph.SplitEmptiesImports`).
- The symbols of the index: a symbol leads to the chunk that it was given to last, unless that one was removed under it since
  (`ImportGraph.SymbolIff`); so an old symbol of a chunk stays, and one that two chunks share can be lost (`ImportGraph.SymbolsGoWrong`).
- The splitter of oversized chunks goes back three lines after each segment, so a line that fits a segment but not
  together with the next three keeps it from ever getting on: it makes 32 segments of the same lines, and all that
  follows is lost. `IndexSplit.AllKeptIff` is the exact condition,
  `IndexSplit.ShortLinesAreKept` a bound on the lengths of the lines and the whole under which nothing is lost, `IndexSplit.SecondLineIsLost` a text of two lines.
- A finished run shows as one new element of the history exactly when the store did not end in the tool messages of a
  round left open (`AgentHistory.FinishedRunPartitionIff`).

## Model

| member | source | states |
|---|---|---|
| Splitter.Normalized | pkg/rag/splitter.go:19-33 | a chunk size of zero or less becomes 1024, a negative overlap zero, one not below the chunk size a quarter of it; everything else stays |
| Splitter.ComputeSentences | pkg/rag/splitter.go:487-520 | the sentence loop yields the specified sentences |
| Splitter.SplitSentencesKeepsInk | pkg/rag/splitter.go:487-520 | the sentences carry exactly the runes of the text that are not white space, in order, and none is blank or untrimmed |
| Sentences.SentencesAreStretches | pkg/rag/splitter.go:487-520 | the sentences are the trimmed non-blank stretches of the trimmed text between cuts, and a cut stands exactly behind a full stop, exclamation or question mark that is last or followed by one of the six runes of line 502 |
| Sentences.NoEndIsOne | pkg/rag/splitter.go:487-520 | a text with no such end before its last rune is one sentence |
| Sentences.SplitsAtStop | pkg/rag/splitter.go:500-505 | around a full stop and a blank both sides are split as they would be alone |
| Splitter.ComputeChunkRunes | pkg/rag/splitter.go:537-562 | the rune counter loop cuts as specified |
| Splitter.HardSplitKeepsInk | pkg/rag/splitter.go:522-562 | hard-split parts have at most `max` runes, are trimmed and non-blank, and carry exactly the ink of the text |
| Splitter.AddSentence | pkg/rag/splitter.go:458-477 | one round of the packing loop: builder, rune counter and parts move together |
| Splitter.PackSentences | pkg/rag/splitter.go:447-479 | the packing loop and the flush after it |
| Splitter.ComputeParts | pkg/rag/splitter.go:435-485 | the paragraph function with both fallbacks yields the specified parts |
| Splitter.SplitOversizedKeepsInk | pkg/rag/splitter.go:435-485 | parts of a paragraph are bounded, carry exactly its ink, and none is blank unless the paragraph is |
| SentencePacking.PartsAreGreedy | pkg/rag/splitter.go:435-485 | the parts of an oversized paragraph of several sentences are greedy groups of them in order: no part could have taken the next sentence, and only a sentence too long by itself is split hard |
| Chunker.AddToChunk | pkg/rag/splitter.go:351-382 | one piece: text builder, rune count, heading path and page range stay those of one group of pieces |
| Chunker.ComputeMerge | pkg/rag/splitter.go:328-385 | the merge loop over builder, counters and page range yields one text per greedy group |
| Chunker.GroupsAreGreedy | pkg/rag/splitter.go:350-385 | groups keep every piece in order, never mix heading paths, never exceed the size, and none could have taken the next piece |
| Chunker.MergeKeepsInk | pkg/rag/splitter.go:328-385 | merging keeps the ink and the size bound |
| Chunker.RangeIsFirstToLast | pkg/rag/splitter.go:172-186 | the union of page ranges runs from the page of the first piece to that of the last |
| Chunker.RangeCovers | pkg/rag/splitter.go:172-186 | for any pieces: the range is from the least first page to the greatest last page of those that have a page |
| Chunker.ComputeChunks | pkg/rag/splitter.go:291-304 | chunks are numbered and know how many there are |
| Chunker.ComputeOverlap | pkg/rag/splitter.go:568-592 | the in-place overlap loop puts the end of the previous original text in front of each chunk |
| Chunker.OverlapKeepsText | pkg/rag/splitter.go:568-613 | a chunk's own text is a suffix of the result even when the joined text is cut, and the result has at most size + overlap runes |
| Overlap.FrontIsLongestEnd | pkg/rag/splitter.go:568-613 | what is put in front of a text is the longest end of the previous one, without white space at its ends, that has at most `overlap` runes and leaves the whole within size + overlap; nothing if there is none |
| Overlap.ChunksOverlap | pkg/rag/splitter.go:310-405 | in any format chunk k is its own text behind that end of the own text of chunk k - 1 and a blank line |
| Normalize.ComputeNormalize | pkg/document/normalize.go:5-53 | the line loop with its current paragraph yields the specified text |
| TextLines.UnixIs | pkg/document/normalize.go:6-7 | rune by rune: a carriage return with its line feed is one line break, one alone is one too, and every other rune stays |
| TextLines.BlankLineSplits | pkg/document/normalize.go:32-41 | a blank line ends a paragraph: what is before it and what is behind it are read independently |
| TextLines.OneParagraph | pkg/document/normalize.go:13-41 | lines of which none is blank are one paragraph of the lines, each trimmed |
| Normalize.ParagraphsOk | pkg/document/normalize.go:13-41 | every paragraph has a line, every line is trimmed, non-empty and without line breaks |
| Normalize.PageTextsOk | pkg/document/normalize.go:5-53 | a normalized page is its paragraphs joined by blank lines, none of which contains one |
| Normalize.NormalizeKeepsInk | pkg/document/normalize.go:5-53 | normalization drops white space only |
| Normalize.NormalizeIdempotent | pkg/document/normalize.go:5-53 | normalizing twice changes nothing |
| PdfPages.ComputeBounds | pkg/document/extract.go:295-316 | the page loop joins the pages and records the rune offset at which each begins, then the length |
| PagePlaces.BoundsAreStarts | pkg/document/extract.go:295-316 | in the joined text page k stands at bound k, and the last bound is the length of the text |
| PdfPages.ComputeSpans | pkg/rag/splitter.go:207-247 | the search for blank lines yields the rune span of every paragraph |
| PdfPages.ComputePageIndex | pkg/rag/splitter.go:249-265 | the binary search over bounds, with its clamps, is the specified page index |
| PdfPages.PageIndexFinds | pkg/rag/splitter.go:249-265 | an offset gets the page whose half-open interval contains it |
| PagePlaces.PageIs | pkg/rag/splitter.go:249-265 | any offset, also one outside the text, has the only page that has begun there, unless it is the first, and whose next has not, unless it is the last |
| PagePlaces.SpanPages | pkg/rag/splitter.go:267-276 | a span has the pages of its first and of its last rune, an empty one page one |
| PagePlaces.ParagraphsStand | pkg/rag/splitter.go:207-247 | in any text every paragraph is exactly the runes from its first to its last offset |
| PdfPages.SpanOnPage | pkg/rag/splitter.go:267-276 | a non-empty span inside a page is labelled with that page at both ends |
| PdfPages.SpansOfTrimmedDoc | pkg/rag/splitter.go:229-247 | on joined page texts the spans are exactly the paragraphs of all pages at their offsets |
| PdfPages.LabelsRight | pkg/rag/splitter.go:278-289 | with text on the first page every paragraph, in order, gets the page it came from |
| PdfPages.LabelsAreRightIff | pkg/rag/splitter.go:278-289 | paragraphs get their own page exactly when the first page has text or no page has any |
| PdfPages.LabelsShift | pkg/rag/splitter.go:310-316 | otherwise the first paragraph is labelled with page 1 although it is on a later page |
| TextSplitter.UpdateStack | pkg/rag/splitter.go:79-87 | a heading keeps the first level - 1 entries of the stack and becomes the innermost one |
| TextSplitter.ReadBlocksOk | pkg/rag/splitter.go:89-125 | every Markdown block carries text and a heading path of at most six titles |
| TextSplitter.ComputeMarkdownBlocks | pkg/rag/splitter.go:89-125 | the block loop with its heading stack yields the specified blocks |
| TextSplitter.ComputePieces | pkg/rag/splitter.go:321-327 | each block is split and its parts keep path and pages |
| TextSplitter.ComputeSplitText | pkg/rag/splitter.go:310-405 | the whole splitter yields the specified chunks |
| TextSplitter.ChunksKeepInk | pkg/rag/splitter.go:310-405 | without overlap, the non-white runes of all chunks in order are exactly those of any plain-text or PDF input |
| TextSplitter.MarkdownKeepsInk | pkg/rag/splitter.go:89-125 | for Markdown the chunks carry exactly the ink of the blocks |
| TextSplitter.ChunksBounded | pkg/rag/splitter.go:350-405 | every chunk ends with its own text of at most chunkSize runes, has at most chunkSize + chunkOverlap, and overlap changes nothing but the text |
| TextSplitter.ChunksAreGroups | pkg/rag/splitter.go:328-405 | in any format there is one chunk for each greedy group of consecutive pieces, in order, with the text, heading path and page union of its group |
| PlainChunks.ParagraphsBreak | pkg/rag/splitter.go:418-433 | plain text up to its first blank line is one paragraph, trimmed, or none when it is blank, and the rest is split likewise |
| PlainChunks.OneParagraphOnly | pkg/rag/splitter.go:418-433 | a text without a blank line is one paragraph, or none |
| PlainChunks.PlainBlocks | pkg/rag/splitter.go:133-139 | the blocks of plain text are its paragraphs, without heading path and pages |
| PlainChunks.NoPagesWithoutBounds | pkg/rag/splitter.go:310-405 | in another format than PDF, or with fewer than two page bounds, no chunk has pages |
| TextSplitter.ChunkPagesAreRight | pkg/rag/splitter.go:278-405 | with text on the first page, each chunk ends with the text of its own greedy group of consecutive pieces, and its pages are the page of the first piece and the page of the last |
| TextSplitter.ExtractedLabelsRightIff | pkg/document/extract.go:295-316 | from raw page texts through extraction to labels: every paragraph has its own page exactly when the first page has text or none has |
| TextSplitter.ExtractedChunkPagesIff | pkg/document/extract.go:295-316 | from raw pages of which some has text to chunks: every chunk has the pages of its own pieces exactly when the first page has text |
| MarkdownOutline.MarkdownBlocksAre | pkg/rag/splitter.go:89-125 | the blocks are the bodies of the document in order, each under the stack of the headings up to it |
| MarkdownOutline.MarkdownLosesHeadingLines | pkg/rag/splitter.go:89-125 | the ink of a Markdown text is that of its heading lines and bodies in order, and without overlap the chunks carry exactly that of the bodies |
| MarkdownOutline.HeadingLineIs | pkg/rag/splitter.go:96-112 | a heading line is its one to six hashes and its title |
| MarkdownLines.ItemIs | pkg/rag/splitter.go:96-122 | a stretch between blank lines has a heading exactly when its first line, trimmed, is one to six hashes, a white rune and a title, and then its body is the rest; without one all of it is the body |
| MarkdownOutline.OpenSnoc | pkg/rag/splitter.go:79-87 | the headings open after a new one are the open ones less deep than it, and itself |
| MarkdownOutline.StackStepIff | pkg/rag/splitter.go:79-87 | the stack is right after a heading exactly when the last entry it keeps is less deep |
| MarkdownOutline.DocumentPathsRightIff | pkg/rag/splitter.go:79-125 | throughout a document the heading paths are those of the open headings exactly when that holds at every heading |
| MarkdownOutline.SkippedLevels | pkg/rag/splitter.go:79-87 | the text of two sibling headings of level three: the second is filed under the first |
| JsonScanner.ComputeExtractLeading | pkg/toolloop/parse_resolve.go:338-378 | the depth/string/escape loop returns the specified prefix |
| JsonScanner.ExtractIsShortestBalanced | pkg/toolloop/parse_resolve.go:338-420 | on arbitrary text the result is the shortest balanced prefix, and empty exactly when there is none |
| JsonScanner.PassesJson | pkg/toolloop/parse_resolve.go:347-375 | scanning any value of the JSON grammar (RFC 8259) returns to the depth and mode it started in |
| JsonScanner.ExtractsJson | pkg/toolloop/parse_resolve.go:338-420 | any array or object of the JSON grammar, followed by any tail, is returned precisely |
| JsonScanner.ComputeExtractEmbedded | pkg/toolloop/parse_resolve.go:422-462 | the search terminates and returns the balanced candidate at the leftmost opening bracket that the tool parser accepts, or nothing if none is accepted |
| JsonScanner.EmbeddedJsonIsHit | pkg/toolloop/parse_resolve.go:422-462 | an accepted array after prose without brackets is that candidate |
| Decimal.ParseOfDec | pkg/mcpclient/tool_alias.go:13-35 | a printed number is read back |
| Decimal.DecOfParse | pkg/mcpclient/tool_alias.go:17-35 | a numeral without leading zeros is the one printed for its value |
| ToolNames.ParseOfAlias | pkg/mcpclient/tool_alias.go:13-35 | parsing a printed alias gives server id and name back, for any positive id and any non-empty byte name |
| ToolNames.AliasOfParse | pkg/mcpclient/tool_alias.go:17-35 | a text that parses is the alias of what it parses to exactly when its number has no leading zero |
| ToolNames.AliasInjective | pkg/mcpclient/tool_alias.go:13-15 | different tools have different aliases |
| ToolNames.AliasIsPlain | pkg/mcpclient/tool_alias.go:13-15 | an alias has only lower-case letters, digits and underscores |
| ToolNames.PlainIsNormal | pkg/toolloop/parse_resolve.go:208-213 | normalization fixes such names |
| ToolNames.RecoverSingleServerAlias | pkg/toolloop/parse_resolve.go:90-125 | the recovery loop yields the specified answer |
| ToolNames.ResolveDeclared | pkg/toolloop/parse_resolve.go:153-206 | the resolution loops yield the specified answer |
| ToolNames.ResolveIsSound | pkg/toolloop/parse_resolve.go:153-206 | any answer is the normalized, non-empty name of a declared tool |
| ToolNames.ResolveIsOrderFree | pkg/toolloop/parse_resolve.go:153-206 | permuting the declared tools does not change the answer |
| ToolNames.AliasResolvesToItself | pkg/toolloop/parse_resolve.go:153-206 | a declared full alias resolves to itself |
| ToolNames.ShortNameResolves | pkg/toolloop/parse_resolve.go:164-206 | a short name that is not itself declared goes to a declared alias with that original name on the least server id |
| ToolResolution.ResolveIs | pkg/toolloop/parse_resolve.go:90-206 | for every name, from the declared tools alone: a declared one leads to itself, another one to the first of the declared aliases it is short for, and without any to c exactly when it is spelled as an alias on a server whose only declared tool is c |
| ToolResolution.ReadsAlias | pkg/mcpclient/tool_alias.go:17-35 | a text is read as an alias exactly when, trimmed, it is spelled as one with an id from 1 to 2^63 - 1 and an even number of hexadecimal digits |
| ToolResolution.TextLessIs | pkg/toolloop/parse_resolve.go:197-203 | aliases on one server are ordered by the first rune in which they differ |
| ToolResolution.NormalIs | pkg/toolloop/parse_resolve.go:208-213 | a normalized name is the name without outer white space, rune by rune in lower case with underscores for hyphens |
| ToolResolution.DirectAnswerNames | pkg/toolloop/parse_resolve.go:624-633 | the direct answer can be written with an underscore, a hyphen or neither; no name of another length is one |
| ToolCalls.CallsAreJson | pkg/toolloop/parse_resolve.go:658-694 | whatever the names and arguments contain, the encoded calls are a JSON array that the scanner cuts out exactly |
| ToolCalls.CallsOnOneLine | pkg/toolloop/parse_resolve.go:658-694 | the encoded calls have no line break and no outer white space |
| CallFields.TextReads | pkg/toolloop/parse_resolve.go:658-694 | every text, written as a JSON string, is read back as it was |
| CallFields.CallReads | pkg/toolloop/parse_resolve.go:658-694 | a reader of an encoded call finds its id, its name under function.name and its trimmed arguments, or empty ones, under function.arguments |
| CallFields.CallsInOrder | pkg/toolloop/parse_resolve.go:674-688 | the array has one encoded call for each call, in order |
| CallFields.OneCallText | pkg/toolloop/parse_resolve.go:658-694 | the printed text of one call without arguments, for any name without special runes |
| AgentLoop.MessageStore.Create | pkg/agent/loop.go:329-339 | a write succeeds as the store decides and appends the message only then |
| AgentLoop.RunTools | pkg/agent/loop.go:257-310 | in whatever order the tools of a round finish, outcome i is that of call i |
| AgentLoop.StoreRound | pkg/agent/loop.go:329-339 | messages are stored in order up to the first failure |
| AgentLoop.PersistAndComplete | pkg/agent/loop.go:175-184 | the answer is stored once, or the run fails; which text it has is stated by AgentLoop.TakeTurnOk |
| AgentLoop.RunToolRound | pkg/agent/loop.go:186-364 | one round through its branches: new history, new store, or the end |
| AgentLoop.RunLoop | pkg/agent/loop.go:63-153 | the round loop is the specified run |
| AgentLoop.TakeTurnOk | pkg/agent/loop.go:111-150 | a turn adds the trimmed reply with the calls that its rows ask for, call_1..call_k, and k tool messages with what those calls returned, to history and store alike; or it stores the trimmed reply, or the text of its lone direct answer; or it fails leaving a part of that round. It goes on exactly when the reply asks for tools that all resolve and the round could be stored, and answers exactly when it asks for none and could be stored |
| AgentLoop.HeadOk | pkg/agent/loop.go:63-153 | at every loop head the history is the initial one plus as many whole rounds as turns were taken, each the round of the reply given to the history before it, and the store has gained exactly the same rounds |
| AgentLoop.RunPassesHead | pkg/agent/loop.go:63-153 | the run goes on from each loop head as it went on from the first |
| AgentLoop.RunFromOk | pkg/agent/loop.go:63-153 | from whole rounds in history and store a run ends with whole rounds and the text of the last reply, or with whole rounds and at most the beginning of one |
| ToolPartition.ConsumeToolChain | pkg/chatstream/tool_partition.go:63-123 | the chain loop yields the specified chain and next index |
| ToolPartition.Partition | pkg/chatstream/tool_partition.go:31-61 | the partition loop yields the specified elements |
| ToolPartition.PartitionCovers | pkg/chatstream/tool_partition.go:31-123 | for any messages, the indices of the elements in order are 0 to n-1, each once |
| ToolPartition.PartitionOk | pkg/chatstream/tool_partition.go:31-123 | every element is a chain of whole segments, each where the last one ends, with its final answer or with nothing after it that it could have taken, or it is a message that starts none |
| ToolPartition.ChainStartsIff | pkg/chatstream/tool_partition.go:25-123 | a chain starts exactly at an assistant message whose calls are not blank and that is followed by a tool message |
| AgentHistory.PartitionOfRounds | pkg/chatstream/tool_partition.go:31-123 | whole rounds and an answer partition into one chain with one segment per round, or into one message when there is no round |
| PartitionJoin.PartitionJoinIff | pkg/chatstream/tool_partition.go:31-123 | for any messages: the elements of a history stay and the new messages are read on their own exactly when those do not go on with a round the history ends in |
| AgentHistory.FinishedRunPartitionIff | pkg/agent/loop.go:63-153 | whatever the store held, the messages after a finished run partition into what was there and the run's rounds and answer exactly when the store did not end in tool messages of a round |
| AgentHistory.RoundSurvivesRunner | pkg/prompt/messages.go:15-49 | flattening a stored round for the runner and parsing it again never loses the calls, and gives back id, name and body of a result exactly when its trimmed name has no closing bracket and, if it is empty, the body is not bracketed |
| RunnerMessages.PrepareMessages | pkg/prompt/messages.go:51-71 | every message is cloned with its content flattened, nil messages are skipped |
| RunnerMessages.PreparedKeeps | pkg/prompt/messages.go:15-71 | system and user messages and plain answers keep their content, and a system or user message has it in the template; a tool message or one with calls keeps it under what is added; role and attachment never change |
| RunnerMessages.PreparedInOrder | pkg/prompt/messages.go:51-71 | one message for each that is not nil, in order |
| RunnerMessages.ReadTrimmed | pkg/prompt/chat_template.go:127-167 | whatever the text is, nothing that is read from it has white space at its ends |
| RunnerMessages.ToolRoundTripIff | pkg/prompt/chat_template.go:144-167 | parsing a flattened tool message gives back id, name and body exactly under the stated condition |
| RunnerMessages.CallsRoundTripIff | pkg/prompt/chat_template.go:127-142 | parsing a flattened assistant message gives back body and calls exactly under the stated condition |
| RunnerMessages.OneLineCallsSurvive | pkg/prompt/messages.go:15-49 | calls encoded on one line always survive, whatever the body contains |
| Tokens.ComputeSumTokens | pkg/llmhistory/tokens.go:46-90 | the sum loop is the specified estimate |
| Tokens.SumAppend | pkg/llmhistory/tokens.go:83-90 | the estimate of a concatenation is the sum of the estimates |
| Tokens.EstimateIs | pkg/llmhistory/tokens.go:33-81 | the estimate of any message between two linear bounds: a quarter of the counted runes and 6, and for an image a sixteenth of its bytes held between 256 and 8192 |
| Trim.DropOldest | pkg/llmhistory/tokens.go:129-148 | the loop drops as many of the oldest messages as specified, image questions together with their answers |
| Trim.TrimMessages | pkg/llmhistory/tokens.go:97-160 | result, flag and dropped messages in each of the three cases; the last tailPreserve messages are the last ones of the result in all of them |
| Trim.DropIsLeast | pkg/llmhistory/tokens.go:129-148 | dropping stops at the budget, and without its last turn the budget was still exceeded |
| Trim.DropsToFirstStop | pkg/llmhistory/tokens.go:129-148 | the loop stops at the very first place where the budget is met or nothing is left and which does not part a user message with an image from the plain answer behind it |
| Trim.TrimmedFits | pkg/llmhistory/tokens.go:117-159 | head and tail are kept and the estimate is within the budget unless only those two are left |
| Shrink.NextLengthMoves | pkg/llmhistory/tokens.go:207-216 | a cut message of L runes gets floor(3L/4)+54: it falls above 216, climbs below 213, stays in 213..216, never drops below 126 |
| Shrink.LengthSettles | pkg/llmhistory/tokens.go:178-218 | from 217 or more it settles on exactly 216, from 212 or less on exactly 213 |
| Shrink.SettledStays | pkg/llmhistory/tokens.go:178-218 | a settled length stays for ever |
| Shrink.LastFilled | pkg/llmhistory/tokens.go:193-201 | the inner loop finds the last message with content before the tail |
| Shrink.ShrinkMessages | pkg/llmhistory/tokens.go:178-218 | the loop, on every input on which it stops, ends in the specified history |
| Shrink.RoundKeepsCanStop | pkg/llmhistory/tokens.go:192-216 | no round changes whether the loop can stop |
| Shrink.StopsIff | pkg/llmhistory/tokens.go:178-218 | the loop stops exactly when no message before the tail is over 96 runes or the least reachable estimate meets the budget |
| Shrink.RunsForever | pkg/llmhistory/tokens.go:178-218 | otherwise it is still running after any number of rounds |
| Shrink.ShrunkIsDone | pkg/llmhistory/tokens.go:178-218 | when it stops, the budget is met or nothing is left to cut, and the tail was never touched |
| ShrinkResult.CutKeepsStart | pkg/llmhistory/tokens.go:207-215 | one round empties a content of up to 96 runes; of a longer one the first three quarters stay, followed by the notice |
| ShrinkResult.ShrinksBackwards | pkg/llmhistory/tokens.go:178-218 | over the whole loop each message before the tail is untouched, or emptied when short, or still begins with its first 72 runes; behind one that changed nothing is left to cut, and no other field changes |
| Budget.BudgetMetrics.AddDrop | pkg/prompt/budget.go:17-43 | the record's totals and maps after a drop |
| Budget.Truncate | pkg/prompt/budget.go:45-60 | a cut body is a prefix plus the notice, the rest is counted, and the notice stays inside the limit when there is room for it |
| Budget.ConsiderBlock | pkg/prompt/budget.go:93-131 | one block: kept, cut or dropped, with the metrics updated in place; which of these is stated by BudgetLedger.BudgetIsLedger |
| Budget.ManageBudget | pkg/prompt/budget.go:62-134 | the manager's loop yields the specified blocks and metrics |
| Budget.BudgetAccounted | pkg/prompt/budget.go:17-134 | dropped runes in total equal the sums by file and by source |
| BudgetLedger.BudgetIsLedger | pkg/prompt/budget.go:62-134 | from the runes free before it, a block is kept exactly when its formatted text fits, gone exactly when its body is blank or it does not fit and fewer than 180 runes are free or fewer than 80 remain for the body, and else cut to fill the free runes exactly; the metrics are what the trimmed bodies lost, in all, for every file and for every source; without room all runes of all bodies, blank ones too |
| BudgetLedger.CutFills | pkg/prompt/budget.go:112-128 | a cut block, formatted with its notice, has exactly as many runes as were free, and loses the rest of its body |
| Budget.BuildContextMessage | pkg/prompt/chat_context.go:21-49 | the builder loop yields the specified message |
| BudgetLedger.ContextShows | pkg/prompt/chat_context.go:25-42 | the text of the prompt is that of the blocks with a body in order, each under its title or its number |
| PromptOrder.ContextIs | pkg/prompt/chat_context.go:21-49 | the context is a system message with the instruction and, below it, the text of the blocks without its last break |
| PromptOrder.PromptIs | pkg/prompt/chat_context.go:55-77 | the system policy is first, then come the history and the context of the documents, and the instruction of the user is last; what is missing leaves no gap |
| Budget.ContextLength | pkg/prompt/chat_context.go:21-53 | the context text is at most the instruction plus the formatted blocks |
| Budget.FewUnnamedFit | pkg/prompt/budget.go:62-134 | whenever a block is kept and at most 40 blocks have a body but no title, the assembled prompt is estimated at no more than maxContextTokens - 512 |
| Budget.BudgetFits | pkg/prompt/budget.go:62-134 | in particular when every block has a title |
| Budget.UntitledOverrun | pkg/prompt/chat_context.go:29-40 | 41 one-rune blocks with blank titles are all kept and overrun the limit |
| Budget.FitsIff | pkg/prompt/budget.go:62-134 | the budget holds for all calls with at most k blocks that have a body but no title exactly when k is at most 40 |
| RequestQueue.Queue.constructor | pkg/requestqueue/queue.go:16-25 | a limit of zero or less gives eight slots, all free |
| RequestQueue.Queue.Acquire | pkg/requestqueue/queue.go:27-48 | one more slot is in use exactly when the call succeeds, and never more than the capacity |
| RequestQueue.Queue.Release | pkg/requestqueue/queue.go:50-59 | one slot less, or nothing when none was in use |
| RequestQueue.Queue.InFlight | pkg/requestqueue/queue.go:61-67 | the number of slots in use, at most the capacity |
| RequestQueue.SendMessage | pkg/llmclient/client.go:177-237 | a slot stays taken exactly when a stream is handed out; every error path returns it |
| RequestQueue.Forward | pkg/llmclient/client.go:239-252 | the forwarder passes every chunk on and then returns one slot |
| JobStore.Store.constructor | internal/service/job_store.go:45-63 | the limit defaults to 256 and nothing is counted as completed |
| JobStore.Store.CountLocked | internal/service/job_store.go:233-253 | the directory loop counts the readable jobs of a status; an unreadable directory counts none |
| JobStore.Store.Enqueue | internal/service/job_store.go:65-97 | a pending job is written exactly when the two counts are below the limit; success means it can be read back |
| JobStore.Store.ClaimNext | internal/service/job_store.go:141-174 | the first pending job whose running record could be written is returned, with the files after every attempt |
| JobStore.Store.Complete | internal/service/job_store.go:176-204 | the record and the counter after success, failure or an unreadable job, and when the caller is told so; what the record holds is stated by JobResults.FinishRecords |
| JobResults.FinishRecords | internal/service/job_store.go:176-204 | a completion whose write lands leaves the old record with status completed and exactly the result, or failed and exactly the error; other records, and all records when nothing is written, stay |
| JobResults.FinishedByItsWorker | internal/service/job_store.go:176-204 | over whole runs: a finished record was there from the start, or it is the running record with the outcome that the worker which executed the job completed it with, unchanged since |
| JobResults.EnqueueRecords | internal/service/job_store.go:65-97 | below the limit and with a write that lands, an enqueue leaves a pending record with exactly the kind, request and body that were asked for; everything else stays |
| JobResults.RecordedByEnqueue | internal/service/job_store.go:65-204 | over whole runs: a readable record that was not there at the start holds the request of an enqueue of the run |
| SlotProtocol.SlotsAreExact | internal/service/job_store.go:292-316 | in every interleaving the slots in use are the live holders, at most the capacity, and no release finds the queue empty |
| SlotProtocol.ClaimsFirst | internal/service/job_store.go:154-171 | a claim returns the first pending job of the listing whose running record can be written, and nothing only if there is none |
| SlotProtocol.ClaimedOnce | internal/service/job_store.go:141-174 | no job is ever claimed twice and no two workers execute the same job |
| SlotProtocol.JobsStep | internal/service/job_store.go:141-204 | any one step of a run leaves a job alone, moves it from pending to running, or from running to completed or failed; a new job is pending |
| SlotProtocol.JobsMoveOn | internal/service/job_store.go:141-204 | between any two moments of a run a job keeps its request, never moves back and never changes once finished, except that its file may become unreadable |
| SlotProtocol.CompletedAreCounted | internal/service/job_store.go:176-204 | from any start the counter gains as many as there are new completed records, and one for each completion whose record was not written |
| SlotProtocol.EnqueueOverrunsIff | internal/service/job_store.go:78-94 | one enqueue passes the limit exactly when it is reached, the counts do not show it and the record is written |
| SlotProtocol.JobsBoundedIff | internal/service/job_store.go:65-97 | pending and running jobs stay within the limit throughout a run exactly when no enqueue of it meets that guard |
| SlotProtocol.JobsBounded | internal/service/job_store.go:65-97 | in particular while the directory can be read for each count |
| SlotProtocol.UnreadableDirectoryOverrun | internal/service/job_store.go:233-253 | without that the limit can be exceeded |
| SlotProtocol.LoneSlotStarvesJob | internal/service/job_store.go:292-316 | with one slot no executing job gets the second slot it asks for, in any run |
| SlotOrphans.OrphanForever | internal/service/job_store.go:141-204 | in every run a running record that no worker executes stays as it is and is neither claimed nor executed |
| SlotOrphans.RestartOrphans | internal/service/job_store.go:45-63 | after a restart all running records are of that kind |
| SlotOrphans.NewOrphanIff | internal/service/job_store.go:141-204 | one step leaves a new record of that kind exactly when it is a claim that wrote it with an error before it found a job to hand out, or a completion whose result cannot be encoded or whose record is not written |
| SlotOrphans.OrphansBlock | internal/service/job_store.go:65-97 | once they fill the limit, no enqueue that reads the directory changes anything any more |
| SlotDrain.Drains | internal/service/job_store.go:292-316 | from any state of a run there is a continuation to one where no slot is taken, no job waits and only those records still say running |
| SlotDrain.ShutForeverIff | internal/service/job_store.go:65-97 | no continuation of a run takes a job exactly when they fill the limit |
| SlotStarvation.MostBusyIff | internal/service/job_store.go:292-316 | from any directory found at the start, n jobs can come to be executed at once exactly when there are n slots and room for n, while the directory can be read for each count |
| SlotStarvation.NestedSlotIff | internal/service/job_store.go:292-316 | some such run lets an executing job take the slot for its chat call exactly when there are two slots or more and room for a job |
| SlotStarvation.AllBusyIff | internal/service/job_store.go:292-316 | from any directory found at the start, executing jobs alone can come to hold every slot exactly when the capacity is at most the larger of the pending jobs and the job limit less the running ones |
| SlotStarvation.FreshBusyIff | internal/service/job_store.go:292-316 | from an empty directory that is when the job limit is no smaller than the capacity |
| SlotStarvation.AllBusyStarves | pkg/llmclient/client.go:177-203 | in such a state no request gets a slot, not even that of a job |
| ToolsCache.Cache.ListToolsCached | pkg/mcpclient/tools_list_cache.go:132-224 | hit, bypass, failure and fetch-and-store: the answer and the new cache |
| ToolsCache.Cache.Store | pkg/mcpclient/tools_list_cache.go:199-220 | the two sweep loops drop expired entries and the server's other fingerprints before the entry is put |
| ToolsCache.Cache.InvalidateServerTools | pkg/mcpclient/tools_list_cache.go:413-432 | exactly the server's entries go |
| ToolsCache.StoredOneFingerprint | pkg/mcpclient/tools_list_cache.go:205-220 | storing keeps at most one fingerprint per server |
| ListCache.HitsAreFresh | pkg/mcpclient/tools_list_cache.go:132-224 | with concurrent callers, joined fetches and invalidations, a hit at t serves a list of its own key whose fetch finished after t - ttl, and a server has at most one fingerprint |
| CacheHits.EntryIff | pkg/mcpclient/tools_list_cache.go:166-223 | in every interleaving an entry is in the cache exactly when a call has stored it and nothing has removed it since: no invalidation of its server, no store for its server, no store by a call that began when it had expired |
| CacheHits.HitIff | pkg/mcpclient/tools_list_cache.go:132-165 | so a call is served a list exactly when such an entry of its key holds that list and lives longer than the moment the call looked at the clock, and misses otherwise |
| CacheHits.OneFetchAtATime | pkg/mcpclient/tools_list_cache.go:175-200 | while calls share their fetches, no server and fingerprint ever has two fetches under way, and a call that missed begins one exactly when there is none |
| ListCache.StaleAfterInvalidationIff | pkg/mcpclient/tools_list_cache.go:413-432 | a list whose fetch finished before an invalidation can be served as a hit after it exactly when some call holds such a list, unstored, that would not have expired |
| ListCache.StaleFetchIff | pkg/mcpclient/tools_list_cache.go:413-432 | a list whose fetch began before an invalidation can be served after it exactly when some call waits for an unfailed fetch whose list would not be expired, or one is open for new calls to join |
| ListCache.HeldListExample | pkg/mcpclient/tools_list_cache.go:166-223 | four steps from the start lead to such a call |
| TokenBucket.NewConfig | internal/delivery/ratelimit.go:24-34 | a limiter exists exactly for a positive rate, its bucket holds a minute's worth |
| TokenBucket.RateLimiter.Allow | internal/delivery/ratelimit.go:36-67 | the answer and the client's new record; other clients stay |
| TokenBucket.ServePays | internal/delivery/ratelimit.go:57-66 | a request at any time keeps the account: every admission is paid by the full bucket or by what came back since |
| TokenBucket.WindowBound | internal/delivery/ratelimit.go:36-67 | in any interval of length T at most burst + limit * T requests of a client are admitted, even if requests are served in another order than they read the clock |
| TokenBucket.AdmittedInAnyOrderIff | internal/delivery/ratelimit.go:36-67 | in any run, whatever the order of the readings, a request is admitted exactly when, counted from each request of the client up to it, it and those admitted before it fit a full bucket and what came back since |
| TokenBucket.AdmittedIff | internal/delivery/ratelimit.go:36-67 | while requests are served in the order of their readings, a request is admitted exactly when, for every interval ending with it, admitting it keeps the client within burst + limit * T |
| TokenBucket.OthersDoNotMatter | internal/delivery/ratelimit.go:36-67 | a client's bucket is what its own requests alone would make it |
| TokenBucket.AnswerFromOwn | internal/delivery/ratelimit.go:36-67 | and so is every answer it gets |
| UploadLimiter.Limiter.CheckPutSessionFile | pkg/sessionupload/ratelimit.go:44-86 | verdict and new table in each branch |
| UploadLimiter.Limiter.MaybePrune | pkg/sessionupload/ratelimit.go:88-98 | the deleting loop keeps exactly the open windows, and runs only on a large table |
| UploadLimiter.PruningIsInvisible | pkg/sessionupload/ratelimit.go:44-98 | while checks are served in the order of their readings, every answer is that of a limiter that never prunes |
| UploadExact.PruningIsInvisibleIff | pkg/sessionupload/ratelimit.go:50-98 | that holds for all runs with readings up to d late exactly when d is 0 |
| UploadLimiter.WindowIsAdmissions | pkg/sessionupload/ratelimit.go:58-84 | in any run, count and bytes of a window are what was admitted from the check that opened it on |
| UploadLimiter.AdmittedIff | pkg/sessionupload/ratelimit.go:58-84 | in any run, an upload is admitted exactly when no window is open, or what was admitted from the check that opened it on leaves room in count and bytes; of two limits passed the count is named |
| UploadBounds.MinuteBound | pkg/sessionupload/ratelimit.go:44-98 | with readings at most d late, d below a minute, a minute holds at most Windows(d) windows of a user, but for one upload; for bytes if no upload alone exceeds the limit |
| UploadBounds.SmallMinuteBound | pkg/sessionupload/ratelimit.go:44-86 | the same for any d with fewer windows, while the table is never pruned |
| UploadExact.WithinIff | pkg/sessionupload/ratelimit.go:50-86 | 159 uploads in a minute is the bound for all runs with readings up to d late exactly when d is 0 |
| UploadExact.MinuteLeast | pkg/sessionupload/ratelimit.go:50-98 | for d up to 20 seconds the bound Windows(d) * 80 - 1, which is 159 or 239, cannot be improved |
| UploadExact.BoundedIff | pkg/sessionupload/ratelimit.go:50-98 | there is any bound exactly for d below a minute |
| UploadExact.SmallLeast | pkg/sessionupload/ratelimit.go:50-86 | for every d the least bound on runs whose table never grows to the pruning size |
| UploadExact.BytesWithinIff | pkg/sessionupload/ratelimit.go:59-80 | with readings in order, a minute holds at most twice the byte limit for all runs of uploads up to x bytes exactly when x is at most the limit, and no lower bound holds for uploads up to the limit |
| UploadLimiter.WindowBytesIff | pkg/sessionupload/ratelimit.go:58-84 | a window stays within the byte limit exactly when its first upload does |
| ChunkIndex.RemoveStringLoop | internal/service/index.go:514-523 | the filter loop removes exactly the given path |
| ChunkIndex.RemoveStringIs | internal/service/index.go:514-523 | everything else stays, without repetitions |
| ChunkIndex.UpsertsAreMapUpdate | internal/service/index.go:80-96 | upserting is updating the map with the last valid chunk of each id |
| ChunkIndex.UpsertedIs | internal/service/index.go:80-96 | an id leads to the last of the upserted chunks with that trimmed id and a content that is not blank, with the terms of its content, and to what it led to before when there is none |
| ChunkIndex.DropsAreMapRemoval | internal/service/index.go:67-77 | deleting is removing the keys |
| ChunkIndex.EmbedSurvivesIff | internal/service/index.go:85-93 | an embedding survives upserts of its id exactly when none changes the content |
| ChunkIndex.LinkedOk | internal/service/index.go:376-400 | updating the graph keeps: every listed import leads back to its path, no importer twice |
| ChunkIndex.UnlinkedOk | internal/service/index.go:402-427 | so does removing a chunk from it |
| ImportGraph.UpsertAddsImporters | internal/service/index.go:376-400 | an upsert makes its path an importer of what it imports and changes no other importer |
| ImportGraph.StepImporters | internal/service/index.go:376-427 | linking or unlinking a chunk decides whether its path imports what the chunk mentions, and nothing else |
| ImportGraph.UpsertStaysExactIff | internal/service/index.go:387-394 | a path that was the importer of exactly its imports stays so after an upsert exactly when nothing it imported is missing from the new imports |
| ImportGraph.RemovalStaysExactIff | internal/service/index.go:402-420 | and after a removal exactly when the chunk that goes has all that the path imported |
| ImportGraph.RunStaysExactIff | internal/service/index.go:376-427 | it stays so through a run of links and unlinks exactly when every step mentions all that the path imports by then |
| ImportGraph.ImporterIff | internal/service/index.go:376-427 | after any run a path is an importer exactly when the last step that mentions the import linked it |
| ImportGraph.StaleIff | internal/service/index.go:376-427 | a run leaves a path listed for what it does not import exactly when a later step of the path passed the import over; the other direction never fails |
| ImportGraph.SyncExactIff | internal/service/index.go:47-124 | both for the steps of a whole sync |
| ImportGraph.SyncImportsAreLast | internal/service/index.go:47-124 | after a sync a path has the imports of its last upsert, or none if any of its chunks was not kept; their chunk is in the bucket exactly when no later upsert took its id |
| ImportGraph.SplitEmptiesImports | internal/service/index_split.go:34-49 | inserting the pieces of a split chunk leaves the path without imports if a later piece is indexed, with those of the chunk if only the first is, and an importer of all of them |
| ImportGraph.SymbolIff | internal/service/index.go:396-427 | after any run a symbol leads to the chunk it was given to last, unless that one was removed under it since |
| ImportGraph.SymbolsGoWrong | internal/service/index.go:396-427 | a chunk that comes with another symbol is still found under the old one; removing the later of two chunks with one symbol leaves the other without its entry |
| ImportGraph.StaleByUpsert | internal/service/index.go:387-394 | a chunk that drops its only import is still listed as importer of it |
| ImportGraph.StaleByRemoval | internal/service/index.go:402-420 | two chunks of a path, and the one without imports is removed: the path has no imports and is still listed, though the other chunk stays |
| IndexSplit.SplitLines | internal/service/index_split.go:55-97 | the loops over the lines of an oversized chunk yield the specified segments |
| IndexSplit.EndIs | internal/service/index_split.go:65-74 | a segment fits, and one more line would be too much |
| SegmentTexts.SegmentsAreParts | internal/service/index_split.go:55-97 | at most 32 segments, each a stretch of whole lines of the chunk within the limit, or a line above the limit cut to it and three dots |
| IndexSplit.AllKeptIff | internal/service/index_split.go:55-97 | every line is in a segment exactly when no line fits a segment but not with the next three, and the segments needed are at most 32 |
| IndexSplit.NotReached | internal/service/index_split.go:86-93 | from such a line on the loop makes all its segments of the lines up to the end of that line's segment |
| IndexSplit.ShortLinesAreKept | internal/service/index_split.go:55-97 | lines of at most m bytes are all kept when four of them fit a segment and all together have at most max + 31 * (max - 4m - 3) bytes |
| IndexSplit.SecondLineIsLost | internal/service/index_split.go:55-97 | two lines that do not fit a segment together: 32 segments of the first, none of the second |
| RepoIndex.Index.UpdateGraphLocked | internal/service/index.go:376-400 | the nested maps after linking a chunk; other workspaces stay |
| RepoIndex.Index.RemoveGraphLocked | internal/service/index.go:402-427 | the nested maps after unlinking a chunk; other workspaces stay |
| RepoIndex.Index.Sync | internal/service/index.go:47-124 | deletes, upserts, then what is not kept; the limit is reported, not enforced; the invariant of every workspace holds and the others do not change |
| RepoIndex.Index.Embedding | internal/service/index.go:353-374 | a stored vector is returned, otherwise the model's answer is stored with its chunk; a non-empty vector is always an answer for the current content |
| RepoIndex.SyncIsMapAlgebra | internal/service/index.go:47-124 | the bucket is ((old less deletes) updated with the valid upserts) restricted to what is kept |
| RepoIndex.SyncKeepsEmbedIff | internal/service/index.go:80-96 | a surviving chunk keeps its embedding exactly when it was not deleted and no upsert changed its content |
| RepoIndex.SyncKeepsSpaces | internal/service/index.go:47-124 | after a sync every workspace has trimmed ids as keys, terms of the current content, embeddings that answer it, and a sound graph |
| EmbedBatch.Backend.EmbedRecursive | pkg/llmrunner/embed_batch.go:45-84 | the recursion with its backend calls is the specified one |
| EmbedBatch.Backend.RepairRows | pkg/llmrunner/embed_batch.go:72-81 | the repair loop over empty rows |
| EmbedBatch.Backend.SplitEmbed | pkg/llmrunner/embed_batch.go:86-107 | halving a failed batch |
| EmbedBatch.Backend.EmbedTextsBatches | pkg/llmrunner/embed_batch.go:13-39 | the batch loop, its default size and its appends |
| EmbedBatch.RepairIsMap | pkg/llmrunner/embed_batch.go:72-81 | repaired rows are the vectors of their texts, at one call a row |
| EmbedBatch.EmbedRecIsMap | pkg/llmrunner/embed_batch.go:45-107 | under any pattern of failures a success has the vector of text i at i, and n texts cost at most 2n - 1 calls |
| EmbedBatch.EmbedTextsIsMap | pkg/llmrunner/embed_batch.go:13-107 | the same for batches of any size |
| MdPatch.ApplyPatch | pkg/document/md_patch.go:37-90 | the loop applies the operations one after another and stops at the first error |
| MdPatch.EditsAre | pkg/document/md_patch.go:92-167 | what each operation makes of a text: at the front, at the end, or line by line at the given place, and when it is refused |
| MdPatch.ReplacesFirst | pkg/document/md_patch.go:99-113 | an accepted substring replacement changes the first occurrence and nothing around it |
| MdPatch.PatchIff | pkg/document/md_patch.go:37-90 | a patch gives r exactly when there are 1 to 200 operations, the text has at most 600000 runes and the texts between the operations lead from it to r, each with no more than the limit |
| MdPatch.InsertThenDelete | pkg/document/md_patch.go:114-141 | inserting lines and deleting as many at the same place restores the text exactly |
| MdPatch.ReplaceIsDeleteInsertIff | pkg/document/md_patch.go:130-160 | replacing a range is deleting and inserting exactly when there is a new line and an original line remains |
| MdPatch.ReplaceAcceptsIff | pkg/document/md_patch.go:99-113 | a substring replacement is accepted exactly when all occurrences overlap the first |
| MdPatch.OverlapPasses | pkg/document/md_patch.go:99-113 | two overlapping occurrences pass as one |

## Left out

- UploadBounds.MinuteBound: for uploads the bound is shown to be the least for readings up to 20 seconds late only, and for bytes with late readings it is an upper bound without a least one.
- Reading PDF, DOCX, XLSX, CSV, JSON, YAML and image files: the model starts from page texts and plain text.
- reStructuredText blocks and the choice of a format by file extension: the format is a parameter of the splitter.
- Chunk metadata other than heading path, pages, index and total: constant strings copied along.
- Invalid UTF-8: text is a sequence of runes; tool names, which the alias encodes byte by byte, are byte sequences.
- Unicode lower-casing and the decoding of alias bytes are parameters (`Charset`) with the few facts that are used.
- The language model, tools, embedding backend, message store and tool-action parser: oracles that may answer anything.
- Fenced-block extraction by regular expression and the decoding of JSON action lists: library calls.
- The history capper, streaming to the client and cancellation in the agent loop: the run has no capper and every turn ends.
- The order in which `sort.Slice` leaves hits: the model takes the least hit directly, which is all the code uses.
- The image test of an attachment is a field of the message, and its byte size a number.
- Integer width: counters and sums are unbounded, except that a server id of an alias must fit 64 bits; line number plus count in a patch can overflow in the source.
- Floating point in the token bucket: modelled over the reals.
- A nil queue, a nil job store and a nil cache: each switches its feature off.
- Transient errors when one job file is read: a file is readable or not until it is written again; uuids of new jobs are not in the directory.
- Liveness of slots, jobs and streams: a forwarder may block on an abandoned consumer and a job waits for a second slot, so nothing is said to happen in every run, only what can happen in some.
- Retry and circuit-breaker logic between taking and returning a slot: it ends in a stream or an error.
- Joining a fetch between the moment it returns and the moment its key is released: the model does both in one step.
- The caches for resources and prompts: copies of the one for tools.
- The ids of the pieces of an oversized chunk: a sync starts from the split chunks; the tokenizer is a parameter.
- The byte-level view of a text in `IndexSplit` and the rune-level view elsewhere are not joined: content is bytes there.
- The vector database, search ranking, BM25 and cosine scores: network calls and floating-point heuristics.
- Embeddings asked for by a search that still holds a chunk already replaced: they are written to an object the index no longer has.
- Shrink.ShrinkMessages: does not model the runs that never stop, because a method that loops for ever has no termination proof; those runs are covered by Shrink.RunsForever.
