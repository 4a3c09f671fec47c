# What the engine promises, stated and proved

The repository is a self-hosted question-answering engine: documents are cut into chunks, embedded and
ranked; a question is answered from the best of them; answers are kept and served again; gaps become
tickets, and confirmed tickets become documents. This project models the parts of it that carry state,
arithmetic or a format, and proves what they promise for every input, every run and every interleaving.

| file | what it models |
|---|---|
| `Text.dfy` | splitting, joining and trimming, as the Go and JavaScript libraries do them |
| `Sse.dfy` | the event stream: the server's frame printer and the browser's incremental reader |
| `Headings.dfy`, `Packing.dfy`, `PackingLimits.dfy`, `Chunking.dfy` | the markdown chunker: headings, oversized sections and when they keep to their limit, the merging loop |
| `Ranking.dfy`, `Hits.dfy` | rank fusion, the approval boost, the in-place per-document cap, top k, neighbours |
| `Budget.dfy` | how much of a thread and of the corpus a model reads |
| `Paths.dfy`, `ScopeFilter.dfy`, `Nestree.dfy` | document paths, scopes, the LIKE pattern, the tree of folders |
| `Corpus.dfy`, `Ingest.dfy` | the document, chunk and vector tables, and the ingest that fills them |
| `Tickets.dfy`, `QaLoop.dfy`, `Answers.dfy`, `Agreement.dfy`, `Partings.dfy` | the ticket queue, the loop that publishes answers, what an answer becomes as a document, whether the two agree, and the runs after which they do not |
| `AnswerCache.dfy`, `Signatures.dfy`, `Coherence.dfy` | the answer cache: rows and pruning, the corpus signature, all interleavings |
| `Diagram.dfy` | quoting the labels of a flowchart |

Code that works by steps is written by steps (classes, arrays, loops) and proved against functions; what
is promised is then proved about the functions. Text is a sequence of characters that stand for bytes, with
ASCII whitespace and ASCII case; scores and shares are real numbers; clocks are natural numbers that move
with every write. The embedding service may fail at any call. The sort of the hits is any descending
arrangement, because the one the code calls is not stable.

## Where the code and its own words part

The model follows the code. These statements are proved, each for all inputs of its kind:

- The chunker's comments give 2400 as the limit of a part. A part that is not broken on lines keeps to it, over
  all bodies whose paragraphs have at most n bytes (or are broken on lines), exactly for n up to 2148
  (`PackingLimits.LimitHoldsIff`); for one body, exactly when no paragraph is too long with what is carried over
  to it (`PackingLimits.OverLimitIff`). Two full paragraphs reach 2652 (`PackingLimits.OverlapExceedsTheLimit`),
  which is the bound (`Packing.PackingIsWellPacked`).
- A part may be empty, exactly when a paragraph that fits has no room beside blank text, or a paragraph over the
  limit is blank (`PackingLimits.EmptyPartIff`); `PackingLimits.BlankParagraphPacksToNothing` has such
  bodies; the cleaning of a document lets those through whose first paragraph opens a fence, where it folds no
  blank lines.
- `SafePath` is not the identity on its own results when a colon is among the first three characters
  (`Paths.FixedPointIff`, with `Paths.SecondColonMoves`), and `Scope` is not on a scope that keeps a blank at its
  edge (`Paths.ScopeIdempotentIff`, with `Paths.ScopeKeepsAnInnerBlank`).
- A scope reaches its subtree up to ASCII case, not exactly (`ScopeFilter.ExactScopeIff`, with
  `ScopeFilter.ScopeReachesOtherCase`).
- Any confirm is said to change the signature. One whose answer has nothing to index does not, and it still
  changes approvals exactly when there is no old name to remove and the new one keeps a document with chunks
  not approved (`Signatures.ChangeIsSeenIff`); a run gets there (`Signatures.OverlookedHappens`).
- A cached answer is said never to outlive its sources. It is from a corpus that was current between its asker's
  reading the signature and the look-up. Whatever the cache holds, it is from the current one exactly when the
  signature that was read is the corpus's still; when it is not, some run with the same writes serves an older
  one (`Coherence.LookUpIsCurrentIff`, `Coherence.HitCanBeBehind`). In every run this is so approvals aside, and
  to the last approval as long as no confirm of the run is one that the signature misses.
- Queue and corpus are said never to disagree. In every run no question is pending twice, exactly the confirmed
  tickets name a document, under qa/, and no chunk elsewhere is approved (`Agreement.RunAgrees`). But that the
  documents under qa/ are the confirmed answers is kept by an operation exactly when it is careful
  (`Agreement.NextAgreesIff`), which the code does not check. The conditions are stated one by one
  (`Agreement.ConfirmAgreesIff`, `Agreement.FailedConfirmAgreesIff`, `Agreement.RetractAgreesIff`,
  `Agreement.SaveAgreesIff`, `Agreement.RemoveAgreesIff`), and for each there is a run from an empty start that
  breaks it (`Partings.dfy`). Editing or removing a published answer in the library, which the product offers,
  is among them.
- Thread and sections are said to keep to their shares of the window. In a window whose share for the sections
  comes to no token the sections are not trimmed; the bound holds exactly when it comes to one
  (`Budget.SharesBoundIff`).
- The number on a folder is that of the documents it reaches only if none of them has the path of a folder
  (`Nestree.CountIsReachIff`, with `Nestree.DocumentAsFolder`), and none of those a question in it reaches is
  under another spelling of it (`Nestree.CountIsScopeIff`).
- Two questions share a row only if they are the same up to case, spacing and marks: a key is its question's
  alone exactly when the separator is in neither model nor scope (`AnswerCache.KeyIsOwnIff`, with
  `AnswerCache.SeparatorInScopeCollides`).

## Model

| member | source | states |
|---|---|---|
| Sse.Sink.Write | internal/server/sse.go:45 | a write that the connection has no room for leaves the part that fitted and fails; one that fits adds exactly its bytes |
| Sse.Stream.Send | internal/server/sse.go:35-51 | one event becomes one frame on the wire, cut where a write fails; after the first failure, or a body that cannot be encoded, nothing more is written |
| Sse.WrittenTwice | internal/server/sse.go:44-49 | two writes in a row leave the wire as one write of both would, wherever it breaks |
| Sse.FrameOnTheWire | internal/server/sse.go:35-51 | one event puts event:, a space, its name, a line feed, data:, a space, its body and a blank line on the wire, as far as the connection takes it; one that does not encode, nothing |
| Sse.Parse | web/ui/src/lib/chat.js:132-149 | the block's event and data as the line rules give them, or nothing when there is no data or it is not valid |
| Sse.BlockIsRead | web/ui/src/lib/chat.js:132-149 | a block is nothing without data or with data that is not valid; its data is that of all its data lines, trimmed, one after the other; its event is the last event line's, or message |
| Sse.ParseEach | web/ui/src/lib/chat.js:128 | every whole block is yielded once, in order |
| Sse.Frames | web/ui/src/lib/chat.js:117-130 | reading chunk by chunk yields the frames of the whole stream split at once, however it was divided |
| Sse.ReadStep | web/ui/src/lib/chat.js:125-127 | splitting what is held back together with the next chunk continues the split of the whole stream |
| Text.SplitAppend | web/ui/src/lib/chat.js:126-127 | splitting a text and going on with its open tail is splitting the longer text |
| Text.SplitJoined | internal/rag/chunk.go:125-138 | joining pieces is undone by splitting when after each of them the separator is the first one there |
| Sse.ParseBlock | internal/server/sse.go:44 | a printed frame is read back as the event and the body that were sent |
| Sse.ArriveIffFit | internal/server/sse.go:44-49 | the first n events arrive whole exactly when their frames fit before the connection ends |
| Sse.WireBytes | internal/server/sse.go:35-51 | what is on the wire is the frames of the events that fit, and then less than one block |
| Sse.SplitBytes | web/ui/src/lib/chat.js:126-128 | frames followed by an unfinished tail are read as exactly those frames |
| Sse.RoundTrip | web/ui/src/lib/chat.js:117-149 | for every list of events, every point at which writing fails and every division into chunks, the client yields exactly the longest prefix of events that arrived whole |
| Headings.HeadingOf | internal/rag/chunk.go:212-225 | one to six hashes and a space, after trimming, make a heading of that level; nothing else does |
| Headings.HeadingIff | internal/rag/chunk.go:212-225 | a line is a heading of level n exactly when, trimmed, it is n hashes, one to six, a space and the text, which is trimmed as well |
| Headings.Push | internal/rag/chunk.go:95-102 | the stack is cut or padded to the heading's parent level, then the heading is added |
| Headings.StackEntry | internal/rag/chunk.go:95-102 | after a heading of level L the stack has L entries, and entry l is the text of the last heading of level l or less if its level is l, and empty if not |
| Headings.NonEmpty | internal/rag/chunk.go:227-235 | the non-empty entries, in order |
| Text.NonEmptyKeeps | internal/rag/chunk.go:227-235 | entries that are not empty all stay, and an empty one among others may be taken out |
| Headings.BreadcrumbSplits | internal/rag/chunk.go:95-103 | a breadcrumb splits into the non-empty entries of the stack, when none of them can be confused with the separator |
| Headings.SubHeadingSays | internal/rag/chunk.go:114-123 | a merged section's own heading is two hashes and the last of those entries |
| Headings.SharedCrumb | internal/rag/chunk.go:125-138 | the components both breadcrumbs begin with, or the first breadcrumb when there are none |
| Headings.CommonComponents | internal/rag/chunk.go:126-133 | the longest list of components both begin with |
| Headings.SharedSplits | internal/rag/chunk.go:125-138 | the shared breadcrumb, split again, has exactly the shared components |
| Headings.CommonOfAllIsLongest | internal/rag/chunk.go:125-138 | a list of components begins the common prefix of several breadcrumbs exactly when it begins each of them |
| Headings.MergedHeading | internal/rag/chunk.go:76-79 | the heading of merged sections is a component prefix of the first one's breadcrumb, and the longest common prefix of all whenever that is not empty |
| Packing.SplitLines | internal/rag/chunk.go:187-210 | the loop over lines computes the parts that the grouping of rows describes |
| Packing.RowGroupsShareOut | internal/rag/chunk.go:195-209 | the groups are the rows in order, each fits with the header or is one row, and none could have taken the next row too |
| Packing.OneShareOut | internal/rag/chunk.go:195-209 | and there is only one way to share the rows out like that |
| Packing.OversizedParagraph | internal/rag/chunk.go:187-210 | every part is the two header lines and its rows; header and rows are all the lines; a part over the limit holds a single row |
| Packing.HeaderOpensEveryPart | internal/rag/chunk.go:187-210 | when there are more than two lines and the first opens with a bar, every part is the first two lines and then its rows, and the rows together are the others; otherwise the parts share out all the lines |
| Packing.PackParagraphs | internal/rag/chunk.go:140-180 | the packing loop computes the parts of the pieces the paragraphs fall into |
| Packing.PackingKeepsParagraphs | internal/rag/chunk.go:147-178 | every paragraph with text is in exactly one piece, in order, besides what is carried over |
| Packing.PackingIsWellPacked | internal/rag/chunk.go:162-175 | what a part carries is the last 250 bytes of the part right before, or blank; with a carry it is at most 2652 bytes, without one at most 2400 |
| Packing.PackingIsGreedy | internal/rag/chunk.go:147-178 | a part is closed only when the next paragraph has no room, is too long for any part, or does not come; the next part then opens with its last 250 bytes |
| Packing.PartsAre | internal/rag/chunk.go:140-180 | the parts of a body are those of its pieces, in order |
| Packing.PiecePartsAre | internal/rag/chunk.go:162-175 | a packed part is the overlap and its paragraphs with a blank line after each, trimmed; a broken one its lines |
| Packing.PackedSection | internal/rag/chunk.go:140-180 | both, for a whole oversized section |
| PackingLimits.OverLimitIff | internal/rag/chunk.go:162-175 | a packed part of a body is over 2400 bytes exactly when some paragraph that has no room is too long with what is carried over to it |
| PackingLimits.LimitHoldsIff | internal/rag/chunk.go:162-175 | the limit holds of every body with paragraphs of at most n bytes, but for those broken on lines, if and only if n is at most 2400 - 250 - 2 |
| PackingLimits.OverlapExceedsTheLimit | internal/rag/chunk.go:140-180 | a body of two paragraphs without spaces that do not fit together gives two parts, the second longer than its paragraph by the overlap and a blank line: 2652 bytes for a full one, so the bound is met |
| PackingLimits.EmptyLinesIff | internal/rag/chunk.go:187-210 | a paragraph that is broken on lines has an empty part exactly when it is blank |
| PackingLimits.EmptyPartIff | internal/rag/chunk.go:147-178 | a body has an empty part exactly when a paragraph that fits has no room beside text that is blank but not empty, or a paragraph over the limit is blank |
| PackingLimits.BlankParagraphPacksToNothing | internal/rag/chunk.go:162-163 | an empty paragraph between a broken-up one and one that nearly fills a part becomes an empty part of the body |
| PackingLimits.NoBlankParagraphNoEmptyPart | internal/rag/chunk.go:162-178 | a body without blank paragraphs has no empty part |
| Chunking.Chunker.constructor | internal/rag/chunk.go:41-47 | nothing is pending and nothing has been written |
| Chunking.Chunker.Emit | internal/rag/chunk.go:49-54 | the pending run goes out as one chunk, if there is one |
| Chunking.Chunker.Flush | internal/rag/chunk.go:56-90 | the section is dealt with as the grouping says, whatever sections follow; the default branch cannot be reached |
| Chunking.Chunker.Line | internal/rag/chunk.go:92-108 | one line more leaves the final outcome as it was |
| Chunking.Chunker.Finish | internal/rag/chunk.go:109-111 | the last section and the pending run are written |
| Chunking.SplitMarkdown | internal/rag/chunk.go:39-112 | the loop with its closures computes the chunks of the grouped sections |
| Chunking.SectionsKeepText | internal/rag/chunk.go:92-108 | the sections are the text between headings, under the breadcrumb of the headings before; joined again they are all the text |
| Chunking.SectionsAreStretches | internal/rag/chunk.go:57-108 | each stretch between headings that is not blank is one section, in order: its text is blanks, the section's body, and blanks, and the section's heading splits into the names of the headings it is under |
| Chunking.ChunksHoldTheText | internal/rag/chunk.go:39-112 | the chunks of a document are its groups' in order: a section alone is one chunk with that body; one over the limit its parts; merged ones one chunk with each body under its own last name |
| Chunking.GroupedIsWellGrouped | internal/rag/chunk.go:62-89 | every section is in exactly one group, in order, by its size; a run stops as soon as it is long enough, or at a section that is not short, or at the end |
| Chunking.OneGrouping | internal/rag/chunk.go:62-89 | and there is only one such grouping |
| Chunking.MergedLength | internal/rag/chunk.go:72-89 | a merged chunk is at most 2 * (600 - 1) + 6 bytes and its last heading |
| Chunking.MergedChunk | internal/rag/chunk.go:72-79 | a merged chunk is its sections in order, each under its own heading; its breadcrumb is the common one |
| Chunking.PackedPartsExist | internal/rag/chunk.go:140-180 | a section with text is packed into at least one part |
| Chunking.NoChunksIffNoSections | internal/rag/chunk.go:56-61 | a document has no chunks exactly when no section of it has text |
| Ranking.Fuse | internal/db/store.go:295-305 | the map holds every ranked id and no other, each with the sum of its shares over all rankings |
| Ranking.AddLeg | internal/db/store.go:300-302 | one ranking more is fused in |
| Ranking.LegScoreAt | internal/db/store.go:300-302 | in a ranking without duplicates the id at rank i scores 1 / (60 + i) |
| Ranking.FusedOnce | internal/db/store.go:295-305 | a chunk's score is the sum of its shares over all rankings |
| Ranking.ScoreInNumbers | internal/db/store.go:295-305 | at places i and j of two rankings it is 1 / (60 + i) + 1 / (60 + j), and in one of them alone its own share |
| Ranking.DominatesWithin | internal/db/store.go:295-305 | with pools of 40 an id that both rankings hold scores above every id that one holds, boosted or not |
| Ranking.DominatesIff | internal/db/store.go:58 | that is so exactly for pools of 40 and fewer |
| Hits.Score | internal/db/store.go:325-338 | every row gets its fused score or nothing, an approved one 1.2 times that, and is otherwise as it was |
| Hits.CapPerDoc | internal/db/store.go:360-378 | the filter in place leaves, at the front of its own array, what the filter on values keeps |
| Hits.TopHits | internal/db/store.go:342-347 | the cap and then the first k |
| Hits.GreedyIsASelection | internal/db/store.go:360-378 | what comes out is at most k candidates, at most three of a document, in order |
| Hits.GreedyIsOptimal | internal/db/store.go:310-378 | and no such selection is better, place by place or in total |
| Hits.OneDocumentIsPlainTop | internal/db/store.go:365-367 | with one document the answer is the plain top k |
| Hits.AgreementRanksFirst | internal/db/store.go:331-342 | after boosting and any sort by score, every chunk both retrievers found is before every chunk one found |
| Hits.Wanted | internal/db/store.go:395-407 | the places looked up are those next to a hit that are no hit themselves |
| Hits.StitchNeighbours | internal/db/store.go:391-451 | number, order and identity of the hits stay; each content becomes the chunk before, itself and the chunk after, where those exist and are no hits |
| Hits.StitchedIs | internal/db/store.go:438-449 | a hit's content becomes the text right before it, a blank line, its own, a blank line and the text right after, each where there is one that is no hit |
| Hits.AddedAtMostTwice | internal/db/store.go:398-407 | no hit's text is added to another hit, and any other chunk's to two at most |
| Budget.WholeTurns | internal/rag/memory.go:58-65 | the turns that have a question and an answer, in order |
| Budget.Afford | internal/rag/memory.go:73-82 | the place from which the turns can be paid for, and from no earlier one |
| Budget.ToMessages | internal/rag/memory.go:84-89 | question and answer of each turn, in order |
| Budget.WholeIs | internal/rag/memory.go:58-65 | a turn is kept exactly when both its question and its answer have text, and stays where it stood |
| Budget.MessagesAt | internal/rag/memory.go:84-89 | of each turn the user says the question and the assistant the answer, both trimmed |
| Budget.CostIs | internal/rag/memory.go:73-82 | what turns cost is the sum of the lengths of their questions and answers |
| Budget.SpentIs | internal/rag/retrieve.go:37-46 | what sections take up is the sum of their lengths |
| Budget.Allowance | internal/rag/retrieve.go:22-32 | a share of a window is the largest multiple of 4 bytes that is no more than four times that share of it |
| Budget.Replay | internal/rag/memory.go:54-91 | the longest suffix of whole turns within the budget, in order, two messages a turn: the user's question and the assistant's answer |
| Budget.NoWindowKeepsAll | internal/rag/memory.go:67 | without a window what is replayed is every whole turn, as long as each is at most 2^20 bytes |
| Budget.ContinuesIff | internal/rag/rag.go:392-403 | a question continues a thread exactly when its newest whole turn fits the thread's share |
| Budget.TrimToBudget | internal/rag/retrieve.go:37-46 | the longest prefix within the budget, and the first section always |
| Budget.Retrieve | internal/rag/retrieve.go:60-80 | with a budget the whole pool is searched and what fits is read; without one the top k are read as they come |
| Budget.SharesBoundThePrompt | internal/rag/retrieve.go:22-80 | when the share for the sections comes to a token and the first section fits it, the messages replayed and the sections read are together at most 4 * window * (one share + the other) bytes |
| Budget.SharesBoundIff | internal/rag/retrieve.go:60-80 | in a known window that bound holds, of every thread and every search whose first section fits, if and only if the share for the sections comes to a token |
| Paths.Segments | internal/rag/upload.go:196-219 | the trimmed, non-empty segments, or nothing when one is refused |
| Paths.SafePathIs | internal/rag/upload.go:246-281 | any name, with back slashes turned, blanks off its ends and a drive cut off, becomes its trimmed non-empty parts between slashes, when they make a good path, and is refused when they do not |
| Paths.IsTextIff | internal/rag/upload.go:267-270 | a name is a text file exactly when what follows its last dot is md, markdown or txt in any case |
| Paths.AcceptedIsGood | internal/rag/upload.go:246-281 | an accepted path is 1 to 4 trimmed, visible segments without control characters, with a text extension, and not under qa/ in any case on import |
| Paths.GoodIsAccepted | internal/rag/upload.go:246-281 | every such path is accepted as it is, unless a colon is among its first three characters |
| Paths.FixedPointIff | internal/rag/upload.go:249-254 | an accepted path is accepted again unchanged exactly when no colon is among its first three characters |
| Paths.SecondColonMoves | internal/rag/upload.go:249-254 | x:a:b.md is accepted as a:b.md, and that as b.md |
| Paths.CleanOfGood | internal/rag/upload.go:274 | cleaning leaves such a path alone, and its segments can be read back |
| Paths.CleanTakesOut | internal/rag/upload.go:274 | cleaning takes out empty parts, dots, and a name with two dots after it, and two dots at the root |
| Paths.FirstNameIsGood | internal/rag/qa.go:193-197 | the name made from a ticket's number is an accepted path |
| Paths.DecimalSays | internal/rag/qa.go:197 | the number in a name says the ticket's number, so no two tickets get one name |
| Paths.UntypedPathIs | internal/rag/qa.go:193-198 | with no name typed an answer keeps its path, or is called by its ticket's number |
| Paths.TypedPathIs | internal/rag/qa.go:199-218 | a typed name goes into qa/ with .md put on when it has no text extension, whether the folder is typed with it, in any case, or not |
| Paths.EscapeIsRefused | internal/rag/qa.go:210-217 | two dots in front of a name are refused, unless the name leads back into qa/ |
| Paths.QaPathStaysInside | internal/rag/qa.go:191-218 | whatever is typed, a confirmed answer's path is an accepted one under qa/ |
| Paths.RetypedPathIsTheSame | internal/rag/qa.go:199-206 | typing the full path that a ticket has gives that path |
| Paths.StoredPathsAreScopes | internal/rag/rag.go:326-334 | every stored path and each of its folders is its own scope |
| Paths.ScopeIdempotentIff | internal/rag/rag.go:326-334 | a scope is its own scope exactly when the first segment of what was typed begins with no blank and the last ends with none |
| Paths.ScopeKeepsAnInnerBlank | internal/rag/rag.go:326-334 | and there are scopes with one |
| ScopeFilter.LikeLiteral | internal/db/store.go:477-482 | the three replacements in turn escape each of the three characters once |
| ScopeFilter.ThreePassesAreOne | internal/db/store.go:478-480 | one pass over the text would do the same |
| ScopeFilter.LikeEscaped | internal/db/store.go:475-482 | an escaped text matches itself, up to ASCII case, and nothing else |
| ScopeFilter.ScopeReachesItsSubtree | internal/db/store.go:466-473 | a scope reaches its own path and the paths that start with it and a slash, up to ASCII case |
| ScopeFilter.NoScopeReachesAll | internal/db/store.go:466-473 | no scope reaches everything |
| ScopeFilter.ExactScopeIff | internal/db/store.go:466-473 | it reaches exactly its subtree if and only if no other stored path differs from it in case alone |
| ScopeFilter.ScopeReachesOtherCase | internal/db/store.go:466-473 | a scope that reaches a folder in another case |
| Nestree.TreeOf | web/ui/src/composables/nestree.js:30-50 | the loop over documents builds the tree |
| Nestree.BuiltHolds | web/ui/src/composables/nestree.js:32-50 | the tree holds the documents' paths and their folders, each once and under its own path, and nothing else |
| Nestree.BuiltChunks | web/ui/src/composables/nestree.js:43-48 | a leaf says how many sections the last document with its path has, and a folder that is no document says nothing |
| Nestree.UnderCountsLeaves | web/ui/src/composables/nestree.js:59-74 | the number added up through the recursion is that of the leaves |
| Nestree.CountIs | web/ui/src/composables/nestree.js:59-74 | a folder's number is that of the documents under it that are no folders |
| Nestree.CountIsReachIff | web/ui/src/composables/nestree.js:53-66 | it is the number of documents under it exactly when none of them has the path of a folder |
| Nestree.DocumentAsFolder | web/ui/src/composables/nestree.js:53-66 | with f/a.md and f/a.md/b.md the number on f is not that of the documents under it |
| Nestree.CountIsScopeIff | internal/db/store.go:466-473 | a folder's number is that of the documents a question scoped to it reaches below it exactly when none of them has the path of a folder and none is under another spelling of the folder |
| Nestree.UnderIffPrefix | web/ui/src/composables/nestree.js:40-42 | a document is under a folder exactly when its path starts with the folder's value and a slash |
| Corpus.Store.UpsertDocument | internal/db/store.go:130-159 | the row is written live with the new text under the id it had or a new one, and its chunks and vectors are gone |
| Corpus.Store.InsertChunk | internal/db/store.go:162-193 | one chunk and its vector, under the same new id |
| Corpus.Store.RemoveDocument | internal/db/store.go:723-751 | a live document's chunks and vectors go, its row stays with its text and says when; anything else is left alone |
| Corpus.Store.Approve | internal/db/tickets.go:236-241 | exactly the document's chunks are approved |
| Corpus.InsertedExtends | internal/db/store.go:162-193 | inserting a list of chunks adds exactly those, in order, each with its own vector |
| Corpus.IngestedFacts | internal/rag/rag.go:132-140 | after an ingest the document's chunks are the ones given, unapproved, and all other rows are as they were |
| Corpus.IngestedRows | internal/db/store.go:162-193 | the rows are each chunk's heading, text and place, not approved, with its vector, under the next free numbers |
| Corpus.IngestedDocument | internal/db/store.go:130-159 | the document is written live, as it was given, under the id it had or a new one |
| Corpus.RemovedFacts | internal/db/store.go:730-749 | after a removal the document has no chunks, and all other rows are as they were |
| Corpus.ApprovedFacts | internal/db/tickets.go:236-241 | approval changes the status of one document's chunks and nothing else |
| Corpus.IngestKeepsDerived | internal/rag/rag.go:132-140 | an ingest keeps the index the one the documents determine |
| Corpus.RemoveKeepsDerived | internal/db/store.go:730-749 | so does a removal |
| Corpus.ApproveKeepsDerived | internal/db/tickets.go:236-241 | and an approval |
| Ingest.Provider.Embed | internal/rag/rag.go:122-128 | one vector for each input, or a failure |
| Ingest.Ingester.EmbedAll | internal/rag/rag.go:114-130 | the batches of 64 together give each chunk the vector of its heading, a line feed and its text, or one failed |
| Ingest.Ingester.Ingest | internal/rag/rag.go:105-142 | a document without chunks, or a failure in any batch, changes nothing; otherwise the document is there, and so are its chunks in order, each with the vector of its heading, a line feed and its text |
| Tickets.NormaliseIdempotent | internal/db/tickets.go:249-266 | a normalised question is its own normal form |
| Tickets.NormaliseIs | internal/db/tickets.go:249-266 | a normalised question is its words in lower case with one blank between them, without the marks at its end unless there is nothing else |
| Tickets.SameWordsSameQuestion | internal/db/tickets.go:249-266 | questions with the same words, case aside, are the same question |
| Tickets.EndMarksDoNotCount | internal/db/tickets.go:249-266 | marks put after a question do not make it another, unless it is marks alone |
| Tickets.OnePerQuestionKept | internal/db/schema.sql:64-65 | every transition keeps at most one pending ticket for a question |
| Tickets.TicketTable.OpenTicket | internal/db/tickets.go:68-93 | a pending ticket for the question is returned, or one is added; a blank question is refused |
| Tickets.TicketTable.Draft | internal/db/tickets.go:97-100 | a pending ticket gets the answer and is answered; any other is left alone |
| Tickets.TicketTable.Confirm | internal/db/tickets.go:109-113 | any but a rejected ticket gets answer and path, and is confirmed |
| Tickets.ConfirmedTickets | internal/db/tickets.go:109-113 | the ticket gets the answer and the path, and loses its note |
| Tickets.TicketTable.Retract | internal/db/tickets.go:123-126 | a confirmed ticket is a draft again and names no document, unless the index refuses it |
| Tickets.TicketTable.Reject | internal/db/tickets.go:134-138 | any but a rejected ticket is rejected with the note and names no document |
| Tickets.TicketTable.DeleteTicket | internal/db/tickets.go:148-157 | the ticket is gone, or was not there |
| QaLoop.Engine.Unpublish | internal/rag/qa.go:104-116 | the document a ticket names stops answering |
| QaLoop.Engine.Reject | internal/rag/qa.go:57-62 | the document goes, then the ticket is rejected |
| QaLoop.Engine.Retract | internal/rag/qa.go:70-82 | of a confirmed ticket only, the document goes, then the ticket is a draft again |
| QaLoop.Engine.Delete | internal/rag/qa.go:90-95 | the document goes, then the ticket |
| QaLoop.Engine.Confirm | internal/rag/qa.go:135-171 | the old name goes, the answer is ingested and approved, and the ticket is confirmed last; a failure of the service stops it in between; gone through, the document answers with the question and the answer in it |
| QaLoop.ConfirmPutsUp | internal/rag/qa.go:135-171 | after a confirm that went through, the document under its path is live and holds the question as a heading, a blank line and the answer, and the ticket has the answer and the path |
| Answers.QaMarkdownLines | internal/rag/qa.go:226-228 | the lines of an answer's document are two signs and the question, an empty line, the lines of the answer, and an empty one |
| Answers.PlainAnswerIsOneChunk | internal/rag/chunk.go:39-112 | an answer of one plain line comes to one chunk, named by the question, that ends in that line |
| Agreement.ConfirmAgreesIff | internal/rag/qa.go:135-171 | a confirm keeps queue and corpus in agreement exactly when the answer has text to index and no other ticket has the name; of a rejected ticket, exactly when it changes nothing that counts |
| Agreement.FailedConfirmAgreesIff | internal/rag/qa.go:149-164 | a confirm whose embedding fails does, exactly when it renames nothing |
| Agreement.RetractAgreesIff | internal/rag/qa.go:70-82 | a retraction does, exactly when no pending ticket asks the same question |
| Agreement.SaveAgreesIff | internal/rag/upload.go:95-107 | saving a document in the library does, exactly when it is not under qa/, or is blank, or has nothing to index, or the embedding fails |
| Agreement.RemoveAgreesIff | internal/rag/remove.go:30-43 | removing one does, exactly when it is not under qa/ or does not answer |
| Agreement.RejectAgrees | internal/rag/qa.go:57-62 | a dismissal always does |
| Agreement.DeleteAgrees | internal/rag/qa.go:90-95 | and so does a deletion |
| Agreement.StartAgrees | internal/rag/qa.go:57-171 | the empty start is indexed, in order and in agreement |
| Agreement.NextIsIndexed | internal/rag/rag.go:105-142 | no operation, failing or not, parts the documents and the index |
| Agreement.NextAgreesIff | internal/rag/qa.go:57-171 | an operation keeps queue and corpus in agreement exactly when it is careful, by guards that can be looked up before it |
| Agreement.NextIsOrderly | internal/db/tickets.go:97-175 | every operation whatever keeps that no question is pending twice, that exactly the confirmed tickets name a document, under qa/, and that no chunk elsewhere is approved |
| Agreement.RunAgrees | internal/rag/qa.go:57-171 | over all runs: the index is the one the documents determine, no question is pending twice, a ticket names a document exactly while it is confirmed, under qa/, and no chunk outside qa/ is approved; and as long as the operations are careful, the documents under qa/ are exactly the confirmed tickets' answers, and exactly their chunks are approved |
| Agreement.AgreesThroughoutIff | internal/rag/qa.go:57-171 | queue and corpus agree at every moment of a run exactly when every operation of it is careful |
| Partings.EmptyAnswerPartsThem | internal/rag/qa.go:153-170 | from an empty start: a question, and an answer to it confirmed that has nothing to index, and they do not agree |
| Partings.HeadingHasNothingToIndex | internal/rag/chunk.go:56-61 | there are such answers: the document of one that is a heading alone is split into no chunks |
| Partings.RejectedConfirmPartsThem | internal/rag/qa.go:135-171 | nor after a question, its dismissal and its confirm |
| Partings.SameNamePartsThem | internal/rag/qa.go:144-170 | nor after two questions confirmed under one name |
| Partings.FailedRenamePartsThem | internal/rag/qa.go:148-164 | nor after a published answer is confirmed under another name while the embedding service fails |
| Partings.EditPartsThem | internal/rag/upload.go:150-174 | nor after a published answer is edited in the library |
| Partings.RemovalPartsThem | internal/rag/remove.go:30-43 | nor after one is removed there |
| Partings.RetractCanPartThem | internal/rag/qa.go:78-81 | nor after an answer is published, its question asked again and the answer taken back |
| AnswerCache.KeyPartsOfKey | internal/db/cache.go:100-106 | model, scope and flag can be read back out of a key |
| AnswerCache.SameKeyIff | internal/db/cache.go:88-94 | two questions share a row exactly when model, scope and flag are the same and the questions have one normal form |
| AnswerCache.KeyIsOwnIff | internal/db/cache.go:88-94 | no other model, scope, flag or normalised question has a question's key exactly when the separator is in neither its model nor its scope, for a question without one |
| AnswerCache.SeparatorInScopeCollides | internal/db/cache.go:88-94 | with the separator in a scope two different questions share a row |
| AnswerCache.AnswerTable.Cap | internal/db/cache.go:43-48 | there is always room for a row |
| AnswerCache.PlaceIsIndex | internal/db/cache.go:152-153 | a row's place by recency is its place in the list of keys, the most recently used first |
| AnswerCache.UsedOrders | internal/db/cache.go:128-130 | using a row, or adding one, moves its key to the front of that list |
| AnswerCache.PruneKeepsRecent | internal/db/cache.go:152-153 | when all rows are under the signature, the prune keeps exactly the most recently used |
| AnswerCache.PruneKeepsNew | internal/db/cache.go:152-153 | when the others are outdated, they all go and the new row stays, though they were counted in the limit |
| AnswerCache.HitKeepsLru | internal/db/cache.go:128-130 | a hit keeps the table a list of at most `keep` keys under one signature, that key first |
| AnswerCache.StoreKeepsLru | internal/db/cache.go:138-155 | so does a store: the new row is in, all rows are under its signature, and what else is there was there |
| AnswerCache.PutAt | internal/db/cache.go:138-149 | a row stored again keeps its first wording and its hits, and gets the answer, the citations, the signature and the time; no citations are stored as an empty list |
| AnswerCache.TableIsLru | internal/db/cache.go:110-155 | over any number of look-ups and stores, the table holds exactly the last `keep` distinct keys stored or hit since the signature last changed, all under that signature, and in that order of use |
| AnswerCache.RecentByLastUse | internal/db/cache.go:152-153 | the list of recent keys is the keys used, each once, in the order of their last uses |
| AnswerCache.AnswerTable.Cached | internal/db/cache.go:110-133 | the row under this signature, counted and moved to the front; otherwise nothing changes |
| AnswerCache.AnswerTable.Cache | internal/db/cache.go:138-155 | the row is stored as the upsert says, and exactly the least recently used or outdated ones go |
| Signatures.RemovalAdvances | internal/db/store.go:730-749 | removing a live document leaves the newest time and lowers the number of chunks |
| Signatures.IngestAdvances | internal/rag/rag.go:132-140 | an ingest that writes raises the newest time |
| Signatures.ConfirmAdvances | internal/rag/qa.go:149-170 | a confirm moves the corpus up, changes nothing, or changes approvals alone |
| Signatures.NextAdvances | internal/db/cache.go:56-66 | every operation moves the corpus strictly up or leaves it alone, but for the one kind that is overlooked, which changes approvals alone |
| Signatures.NextAdvancesAside | internal/db/cache.go:56-66 | approvals aside, every operation whatever moves it strictly up or leaves it alone |
| Signatures.SignatureIff | internal/db/cache.go:56-66 | two signatures are the same exactly when both counts, the newest time and the configuration are |
| Signatures.ApprovalChangesIff | internal/db/tickets.go:236-241 | approving a document changes the corpus exactly when a chunk of its row is not approved yet |
| Signatures.ChangeIsSeenIff | internal/db/cache.go:50-66 | an operation changes the corpus and leaves its signature exactly when it is a confirm with nothing to index, no live document under an old name, and under its own name a document with a chunk not approved yet |
| Signatures.OverlookedHappens | internal/rag/qa.go:135-171 | two operations from an empty start after which such a confirm is the next |
| Signatures.NeverRecurs | internal/db/cache.go:50-66 | in a log of corpora that only moves up, two entries with one signature are one corpus, and so is every entry between |
| Signatures.RunNeverRecurs | internal/db/cache.go:50-66 | over every run of operations, two moments with one signature are moments of one corpus, unchanged in between: approvals aside, and altogether when no operation is an overlooked one |
| Signatures.SameTimeIsUnseen | internal/db/store.go:147-151 | without a clock that moves between writes it fails: a document saved twice at one reading has another text and the same signature |
| Signatures.HalfAnIngestRecurs | internal/rag/rag.go:132-140 | and so it does if an ingest can be seen half done: its signature comes back over another corpus |
| Coherence.AfterHolds | internal/rag/rag.go:431-510 | every step of every question, and every write, keeps what is known of the rows and of the questions under way, and that the log moves up: approvals aside, and altogether unless the write is an overlooked one |
| Coherence.RunHolds | internal/rag/rag.go:375-521 | and so does every run, altogether when no write of it is an overlooked one |
| Coherence.HitAnswersTheSame | internal/rag/rag.go:433-443 | a hit is a non-empty answer that is no miss, given outside any thread under the same configuration, for the same model, scope, web flag and normalised question |
| Coherence.NoAnswerIsNotKept | internal/rag/rag.go:260-263 | a reply that ends in saying there is no answer and cites nothing is not stored, nor is an empty one |
| Coherence.AnswerIsKept | internal/rag/rag.go:501-509 | one that cites a document, whatever it ends in, or ends otherwise, is stored with its question, citations and signature |
| Coherence.SameQuestionIsServed | internal/rag/rag.go:433-443 | who asks the same of the same model, in the same scope and with the same choice of web sources, under the same signature, is then served it |
| Coherence.HitIsFromWithin | internal/rag/rag.go:433-443 | its sources were the corpus of some moment between its asker's reading the signature and the look-up; approvals aside, or exactly when the log moves up |
| Coherence.CurrentSignatureCurrentSources | internal/rag/rag.go:433-443 | if the signature read is still the corpus's, its sources are the current corpus, in the same two senses |
| Coherence.LookUpIsCurrentIff | internal/rag/rag.go:423-443 | in any run, when a question comes to its look-up the signature it read is the corpus's still if and only if every hit it could get, whatever the cache holds, is from the current corpus; and if and only if every hit it gets in any run with the same writes is (approvals aside, and exactly when no write is an overlooked one) |
| Coherence.HitIsCurrentIff | internal/rag/rag.go:433-443 | the sources of one hit are the current corpus exactly when they have the current signature, in the same two senses |
| Coherence.NoHitOutlivesItsSources | internal/rag/rag.go:431-510 | for every run from an empty start, over all interleavings: what a hit answers, that its sources are from within, and that they are current if the signature still is; of the corpora, approvals aside, and exactly in a run with no overlooked write |
| Coherence.SignaturesNeverRecur | internal/db/cache.go:50-66 | over every run of questions and writes, two moments with one signature are moments of one corpus, unchanged in between, in the same two senses |
| Coherence.HitCanBeBehind | internal/rag/rag.go:433-440 | a run in which a write between reading the signature and the look-up leaves a hit whose sources are not the current corpus |
| Diagram.FindLabel | web/ui/src/lib/diagram.js:137-164 | the label that starts here, and where it ends |
| Diagram.EdgeLabelIs | web/ui/src/lib/diagram.js:138-142 | between two pipes on a line is a label; a pipe that is the last on its line starts none |
| Diagram.NodeLabelIs | web/ui/src/lib/diagram.js:143-163 | a bracket after a word character starts a label up to the bracket that shuts it; after anything else it does not |
| Diagram.OthersStartNone | web/ui/src/lib/diagram.js:143-146 | no other character starts one |
| Diagram.FindPipe | web/ui/src/lib/diagram.js:138-142 | the text up to the next pipe, if that is on this line |
| Diagram.FindShape | web/ui/src/lib/diagram.js:143-163 | the shape whose bracket is shut on this line, its text without the mirrored marks |
| Diagram.ShutIndex | web/ui/src/lib/diagram.js:150-159 | where the brackets that stand open are all shut, or nowhere on this line |
| Diagram.ShutAtFirst | web/ui/src/lib/diagram.js:149-159 | that is the first place on the line after which as many brackets are shut as were opened, and none only if there is no such place |
| Diagram.StripMirrors | web/ui/src/lib/diagram.js:160-162 | what mirrors the shape's inner marks is taken off the text |
| Diagram.StrippedIs | web/ui/src/lib/diagram.js:160-162 | the marks taken off mirror the inner marks one for one from the inside out, and no fewer than there are |
| Diagram.MirrorsAre | web/ui/src/lib/diagram.js:93 | brackets mirror their own kind, and slashes any slash |
| Diagram.LabelIsPrefix | web/ui/src/lib/diagram.js:163 | a label's three parts are a stretch of the source, not empty, and no word character ends it |
| Diagram.PiecesAreTheSource | web/ui/src/lib/diagram.js:111-119 | labels and the characters between them are the source, cut up |
| Diagram.QuoteIdempotent | web/ui/src/lib/diagram.js:167-172 | a quoted text, or one that needs no quotes, is left alone |
| Diagram.QuoteIs | web/ui/src/lib/diagram.js:167-172 | a text is quoted exactly when it has a character the grammar reads and is not quoted yet: in quotes, its own quotes written out |
| Diagram.ScanKeepsMarks | web/ui/src/lib/diagram.js:106-121 | no bracket, pipe or line break is added, dropped or moved |
| Diagram.SameLabels | web/ui/src/lib/diagram.js:106-121 | the repaired source is read as the same labels in the same places, with quoted texts |
| Diagram.ScanIdempotent | web/ui/src/lib/diagram.js:106-121 | scanning the repaired source changes nothing |
| Diagram.ScanChangesIff | web/ui/src/lib/diagram.js:106-121 | a source is changed exactly when some label's text cannot be read without quotes |
| Diagram.ScanMakesReadable | web/ui/src/lib/diagram.js:106-121 | and afterwards every label's text can be |
| Diagram.ScanIsEdited | web/ui/src/lib/diagram.js:106-121 | scanning only puts quotes after marks that open and before marks that shut, and writes out the quotes it finds; every other character stays, in order |
| Diagram.FlowStays | web/ui/src/lib/diagram.js:87 | a repaired flowchart is recognised as a flowchart, whatever directives come first |
| Diagram.FlowOpens | web/ui/src/lib/diagram.js:87 | graph or flowchart in any case, with no word character after it, opens a flowchart, behind blanks and directives that end on their line |
| Diagram.NoFlow | web/ui/src/lib/diagram.js:87 | a source whose first character is none of those is none |
| Diagram.NodeIsQuoted | web/ui/src/lib/diagram.js:106-121 | a node's text is quoted where that is due, whatever comes after it |
| Diagram.Repair | web/ui/src/lib/diagram.js:106-121 | the scanning loop computes the repaired source, of a source that opens with graph or flowchart only |
| Diagram.RepairIdempotent | web/ui/src/lib/diagram.js:87-121 | repairing twice is repairing once; a source is a flowchart exactly when the repaired one is, and then its labels can all be read |

## Left out

- Paths.ScopeIdempotentIff: trimming and case are ASCII here; the code trims and folds Unicode, so the texts it treats alike are more.
- ScopeFilter.ExactScopeIff: LIKE folds ASCII letters only, and so does the model; collations and normal forms of Unicode are not modelled.
- Diagram.Repair: blanks and word characters are ASCII, and a line ends at a line feed or a carriage return; the two Unicode line ends are not modelled.
- Nestree.TreeOf: the nested maps are updated in place in the code and rebuilt as values here; expansion, labels and the order of the payload are not modelled.
- Coherence.HitAnswersTheSame: that the questions are the same needs model and scope free of the separator, which the code does not ensure.
- Coherence.RunHolds: every write is one step, with a clock that moves; the database's clock has seconds, and an ingest is an upsert and inserts (`Signatures.SameTimeIsUnseen` and `Signatures.HalfAnIngestRecurs` say what that costs).
- Signatures.NextAdvances: the signature is a tuple; that its printed form can be told apart again is not modelled.
- AnswerCache.StoreKeepsLru: rows are used at different times; with equal times the database may order them as it likes.
- QaLoop.Engine.Confirm: an error of the database in the middle of an operation is not modelled, a failure of the embedding service is.
- Hits.TopHits: the rows and the sort are inputs; the query that loads them is not modelled.
- Sse.RoundTrip: JSON is text without line breaks or outer whitespace and a predicate for what is valid; decoding characters that a chunk cuts in two, and what is done with a frame, are not modelled.
- The cleaning of a document before it is split: the chunker starts from its lines.
- An edit that moves a document is its two operations, a save and then a removal, one after the other.
- Retrieval itself: a ranking is any list of ids without duplicates.
- Coherence.HitIsFromWithin: retrieval reads the corpus of one moment; the code runs several queries, and a write between two of them would mix two.
- The window and the share that a question's thread is cut to come with the question; looking them up by model is not modelled.
- The text of an answer is any text; prompts, citations, the web supplement, small talk and the rewriting of follow-ups are not modelled.
- HTTP, settings, access, migrations and the pages of the client beyond the functions above.
- Tables' columns that nothing above depends on: times of tickets, the identity text of a chunk, the order of the queue and of the history.
