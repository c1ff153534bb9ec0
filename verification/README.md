# Verified model of the blog engine's core

This project models the parts of the engine that are hardest to get right, and proves what they are for:

- **Rate limiting** (`TokenBucketProtocol`, `RateLimiter`, `LimiterReference`): the compare-and-swap loops of one token bucket as a state machine over any number of threads and any interleaving, and the two-layer limiter with lazily created and cleaned-up client buckets as a class. The first gives the window bounds, the second refines a limiter that holds a bucket for every client from the start, and the third says when it matters how those buckets start.
- **The build cache** (`CacheFile`, `PostCache`, `SiteMaker`, `BuildHistory`, `EditHistory`, `CacheWitness`): the byte format of the cache file, the cache and the parsing stage of a build, and whole histories of edits and builds. A cached build agrees with one that ignores the cache. The results assume that the JSON library reads back what it wrote, that every entry that is rendered is shorter than 2^63 bytes, and that there are fewer than 2^32 files; `CacheWitness` has a library and a history that meet this.
- **Task execution** (`Executor`): the bounded blocking queue and the workers that drain it, with waits, timeouts, spurious wakeups, a `closed_` flag that is set outside the lock, and tasks that submit further tasks.
- **Markdown** (`Emphasis`, `Paragraph`, `LineEnd`, `Blocks`, `Markdown`, `ListText`, `ListDepth`, `TableText`, `DocumentText`): the emphasis stack machine, the inline scanner, and every block parser at work on the list of lines, some of which it overwrites while it looks ahead. Printed lists, tables and whole documents are read back.
- **HTTP framing** (`Url`, `Http`, `HttpText`, `RequestBuffer`, `HttpResponse`): the query parser, the request-line and header scanner, the accumulation of chunks, and the response printer (RFC 9112, sections 3, 5 and 6.2).
- **Vector kernels and segments** (`VectorKernels`, `TaskSequence`): lane-wise sums and inner products, and the partition of a playlist into tasks.

`Text` holds the string helpers they share, `Basics` a few definitions.

Code that works in place is a class or a method with loops, proved equal to a specification function of the old state; the lemmas are about those functions. Concurrent code is a state machine over atomic steps (a load, a compare-and-swap, a clock check, a queue operation under its lock), and a run is any sequence of steps. Time is an integer number of nanoseconds.

## What the proofs found

- **It can matter how client buckets start.** The lazily filled limiter equals an eager one whose client buckets start due for a refill (`LazyBucketsAreUnobservable`). One whose buckets are filled at construction gives the same answers on all traces if and only if the client limit is 0 or at least twice the global limit (`FilledBucketsAgreeExactly`; `BucketsFilledAtConstructionWouldDiffer` is a short trace that tells them apart).
- **The cache trusts write times.** A cached build gives the posts of a clean one if and only if every post it takes from the cache, up to the first failure, would be parsed to the same entry (`CachedPostsAgreeExactly`, and `CachedPagesAgreeExactly` for pages). An edit that brings back a write time the file had before breaks this (`ReusedWriteTimeGoesUnnoticed`): over histories with such edits, the two builds agree if and only if every version in the cache that has the present write time of its file is parsed to the same entry as the present version (`CachedBuildAgreesExactly`). Without such edits the cache is invisible (`CachedBuildEqualsCleanBuild`), and it does its work: nothing unchanged is parsed twice (`NextBuildParsesNothing`).
- **An empty cache is reported as rejected.** `store` writes it, `load` answers false; nothing is lost, since nothing was cached (`DecodeEncode`).
- **Lists do not look again at the line after a nested list.** A printed list is read back if and only if every item that follows a nested list dedents by one level only or has no text, and the last item has no nested list or an empty line follows (`ItemListReadsBackExactly`). An item with a text that dedents further may be taken into a list on the way (`DeepDedentIsMisread` is an example). At the end of the text an exception escapes if and only if the parser is still inside a nested list: line by line, its depth stays, rises by one or falls by one towards the indentation of the line, and falls further while the list there sees no text or an open mark (`ListAtEndExactly`). So it escapes after a last item that is nested (`NestedEndThrows`), unless an item on the way is read past its end, and it can escape after one that is not (`DeepDedentThrows`). A table without rows at the end of the text throws too (`TableRoundTrip`). In a printed document with an empty line behind each block, nothing but such lists is misread (`DocumentRoundTrip`).
- **An announced length of zero is refused.** A request that is only a header section is complete exactly when it has no Content-Length (`BodylessRequest`).
- **Unclosed code, formulas, links and footnotes are accepted at the end of a line.** The guards that should treat them as text can never hold: the methods carry `assert false` in those branches (`Paragraph.ParagraphElement.TryParseCode`).
- **Some lines are read past their end.** Without the blanks around it, a line of three characters or more is if and only if it ends in `[^` and the scan arrives at that bracket: no code, formula, link or footnote name takes it in, and no mark stays open in a run of text before it (`LongLinePastEnd`; "x[^" is such a line, "`a[^" is not). In a shorter line `size() - 3` wraps around; it is read past its end if and only if it begins with `[`, or ends with one that neither a backquote, a dollar sign nor a star comes before (`ShortLinePastEnd`). The model has an outcome of its own for this, `PastEnd`, after which nothing is claimed.

## Model

| member | source | states |
|---|---|---|
| TokenBucketProtocol.WindowBound | src/utils/rate_limit.hpp:59-80 | In every interleaving of N threads, at most limit * (1 + N * (floor(D) + 1)) permits are granted in any closed window of D seconds |
| TokenBucketProtocol.SingleThreadWindowBound | src/utils/rate_limit.hpp:59-80 | With one thread the bound is limit * (floor(D) + 2) |
| TokenBucketProtocol.TokensStayInRange | src/utils/rate_limit.hpp:59-80 | The counter never leaves 0..limit, whatever the interleaving |
| TokenBucketProtocol.RunKeepsBound | src/utils/rate_limit.hpp:59-80 | The bound holds with the refills each thread has made so far, and refills of one thread are spaced by a second |
| RateLimiter.TimedLimit.Permit | src/utils/rate_limit.hpp:59-80 | A bucket's refill and take loops, without interference, are one sequential refill-and-take step |
| RateLimiter.SoloRunIsTake | src/utils/rate_limit.hpp:59-80 | An uninterrupted thread of the concurrent protocol performs exactly that sequential step |
| RateLimiter.TokenBucketRateLimiter.TryCleanup | src/utils/rate_limit.hpp:102-121 | Erases exactly the buckets idle for an hour, in quiet times only |
| RateLimiter.TokenBucketRateLimiter.EnsureBucket | src/utils/rate_limit.hpp:93-98 | Creates a full bucket for an unknown client and leaves every other bucket alone |
| RateLimiter.TokenBucketRateLimiter.PermitClient | src/utils/rate_limit.hpp:99 | Takes from that client's bucket only, although buckets are separate objects in a map |
| RateLimiter.TokenBucketRateLimiter.PermitGlobal | src/utils/rate_limit.hpp:82-84 | Takes from the global bucket only |
| RateLimiter.TokenBucketRateLimiter.Permit | src/utils/rate_limit.hpp:86-100 | Cleanup, then the global bucket, then the client's: the new state and answer of the whole limiter |
| RateLimiter.LazyBucketsAreUnobservable | src/utils/rate_limit.hpp:86-121 | On every request trace with a nondecreasing clock, the limiter answers as one that holds a bucket for every client and never erases |
| LimiterReference.FilledBucketsAgreeExactly | src/utils/rate_limit.hpp:93-98 | An eager limiter whose client buckets are filled at construction answers like the lazy one on all traces if and only if the client limit is 0 or at least twice the global limit |
| LimiterReference.AmpleLimitNeverBinds | src/utils/rate_limit.hpp:59-100 | A client limit of at least twice the global limit is never what denies a request |
| RateLimiter.WindowBounds | src/utils/rate_limit.hpp:59-121 | Each client obeys its own window bound, and all clients together obey the global one |
| Executor.TasksAreHandedOverInOrder | src/utils/blocking_queue.hpp:18-62 | In every run: accepted tasks are those taken followed by the queue, in order and without repetition, and the queue stays within capacity |
| Executor.AnswersTellAcceptance | src/utils/executor.hpp:57-69 | `async_execute` answers true exactly for tasks that entered the queue, and a refused task never enters it later |
| Executor.LittleHappensAfterClose | src/utils/blocking_queue.hpp:18-68 | Once closed, at most one more push succeeds and each worker takes at most one more task |
| Executor.RunningTasksAreApart | src/utils/executor.hpp:24-40 | A worker runs only a task it took, and no two workers run the same one |
| Executor.StepKeepsInv | src/utils/executor.hpp:24-69 | Every step of every thread, workers inside a task included, keeps the invariant of lock, history, calls and late tasks |
| CacheFile.NumberRoundTrip | src/maker.hpp:274-283 | Fixed-width little-endian numbers are read back |
| CacheFile.JsonRoundTrip | src/maker.hpp:161-185 | An entry survives its JSON form, including write times before the clock's epoch, which pass through unsigned numbers |
| CacheFile.DecodeEncode | src/maker.hpp:213-287 | A file of entries whose texts are shorter than 2^63 bytes is read back record by record; one without records is rejected |
| CacheFile.LoadAfterStore | src/maker.hpp:213-287 | Whatever order such entries are written in, loading gives the stored map |
| CacheWitness.CodecIsLossless | src/maker.hpp:278-282 | A JSON library as the cache relies on it exists |
| CacheWitness.HistoryExists | src/maker.hpp:213-446 | A history with such a library exists, in which a post is written and a build stores it |
| PostCache.Post.Parse | src/maker.hpp:71-85 | After parsing, a post shows what rendering its file gives, or it fails just when rendering does |
| PostCache.Post.Cached | src/maker.hpp:161-175 | A post out of the cache shows the cached values, with a missing date or id filled in from write time and file name |
| PostCache.Post.Title | src/maker.hpp:87-108 | The cached getter answers what the post shows and does not change it |
| PostCache.Post.UpdatedAt | src/maker.hpp:110-124 | Same for the date, which falls back to the write time |
| PostCache.Post.Id | src/maker.hpp:126-137 | Same for the id, which falls back to the file name |
| PostCache.Post.Html | src/maker.hpp:139-147 | Same for the HTML |
| PostCache.Post.ToJson | src/maker.hpp:177-185 | Writes down what the post shows and does not change it |
| PostCache.MakerCache.Load | src/maker.hpp:213-240 | Loads what the file decodes to, also the records before a bad one, and tells success, rejection and exception apart; a file that cannot be opened is rejected |
| PostCache.MakerCache.LoadRecords | src/maker.hpp:239-257 | The record loop loads the records up to the first bad one |
| PostCache.MakerCache.Store | src/maker.hpp:260-287 | The early return is taken exactly when nothing changed; otherwise the file lists the new state, each entry once, or the write fails and the file stays |
| PostCache.MakerCache.MatchThenGet | src/maker.hpp:297-307 | A hit needs the path and the same write time, and only a hit copies the entry into the new state |
| PostCache.SameSizeSubmap | src/maker.hpp:261-263 | A map contained in another of the same size equals it: why comparing sizes is enough |
| SiteMaker.Maker.ObtainPost | src/maker.hpp:394-411 | One post: out of the cache if the write times agree, else parsed and cached |
| SiteMaker.Maker.ParsePosts | src/maker.hpp:393-412 | Posts are obtained in order up to the first failure, and the new cache state holds just them |
| SiteMaker.Maker.ParsePages | src/maker.hpp:421-440 | Pages that fail are skipped; the cache holds the rest beside the posts |
| SiteMaker.Maker.Parse | src/maker.hpp:387-446 | The parsing stage as a whole: posts sorted, pages, and a cache file that is rewritten to the new state whenever that differs from what was loaded and the file can be written |
| SiteMaker.Make | src/maker.hpp:620-628 | A build in a process of its own, with or without the cache, with any content of the cache file, readable and writable or not |
| SiteMaker.BeforeTransitive | src/maker.hpp:414-419 | For the comparison of posts, newest first and then by title: if b does not come before a, nor c before b, then c does not come before a |
| SiteMaker.StringLessTotal | src/maker.hpp:414-419 | The comparison of strings is asymmetric, and two strings neither of which is less are equal |
| BuildHistory.NotBeforeItself | src/maker.hpp:414-419 | No post comes before itself |
| BuildHistory.CachedBuildEqualsCleanBuild | src/maker.hpp:213-446 | After any history of edits, deletions and builds, a cached build gives the same posts and pages as a clean one, in the same order up to ties in date and title, and fails just when it fails |
| BuildHistory.RunIsSound | src/maker.hpp:213-307 | Every entry in the cache file is what rendering some registered version of its file gives |
| BuildHistory.CachedPostsAgreeExactly | src/maker.hpp:297-307 | On any disk and with anything known, posts come out as without a cache if and only if each one taken from the cache, up to the first failure, would be parsed to the same entry |
| BuildHistory.CachedPagesAgreeExactly | src/maker.hpp:297-307 | The same for pages, all of which are tried |
| BuildHistory.BuildKeepsSound | src/maker.hpp:387-446 | One build, failed or not, keeps that |
| BuildHistory.NextBuildParsesNothing | src/maker.hpp:213-307 | After a successful build whose cache file could be written, a cached build of the unchanged site parses no post again, and no page except those that fail |
| BuildHistory.ReusedWriteTimeGoesUnnoticed | src/maker.hpp:297-307 | The case of one post and an edit that brings back its old write time: the cached build shows the old content |
| EditHistory.CachedBuildAgreesExactly | src/maker.hpp:297-307 | After any history, also one with edits that bring back write times, a cached build and a clean one agree in success, posts and pages if and only if, for every file the clean one looks at, the cached version has another write time or is parsed to the same entry as the present one |
| EditHistory.RunIsTraceable | src/maker.hpp:213-307 | In such a history, too, every entry of the cache file is what parsing one version of its file gives: the one on the disk when a build last parsed it |
| BuildHistory.SortedRanksAreUnique | src/maker.hpp:413-419 | Two sorted arrangements of the same posts agree in date and title everywhere |
| Text.ViewStripEmpty | src/utils/strings.hpp:13-28 | Gives the text without blanks at either end |
| Text.StripParts | src/utils/strings.hpp:13-28 | The text is its stripped middle between blanks, and that middle has none at its ends |
| Url.ParseOne | src/service/http/protocol.hpp:205-215 | Splits a parameter at its first '='; without a value the whole of it is the key |
| Url.UrlQuery.Parse | src/service/http/protocol.hpp:217-244 | The path, and the parameters bound in order |
| Url.UrlQuery.ParseParams | src/service/http/protocol.hpp:229-242 | The loop over '&' binds all the pieces, later ones replacing earlier ones |
| Url.QueryRoundTrip | src/service/http/protocol.hpp:205-244 | A printed path and parameter list is recovered, later duplicates of a key winning |
| Http.HttpRequest.ParseHeaders | src/service/http/protocol.hpp:302-328 | The header loop adds the headers of all lines up to the empty one, and notes where that is |
| Http.HttpRequest.ParseRequest | src/service/http/protocol.hpp:297-358 | The state and answer after a call, over every combination of headers, announced length and bytes |
| Http.HttpRequest.ParseBody | src/service/http/protocol.hpp:335-357 | Complete, continue or invalid by announced length; without one, by the empty line at the end |
| Http.ProbeBuffer | src/service/http/protocol.hpp:381-443 | The request line is found and taken apart, or refused, with what is known by then |
| Http.ParseTarget | src/service/http/protocol.hpp:401-416 | The method and target are the texts before the first two separators, and the target is parsed as a query |
| Http.ParseVersion | src/service/http/protocol.hpp:425-437 | A version is what follows the first slash, if that follows "HTTP" |
| HttpText.ProbeOfPrinted | src/service/http/protocol.hpp:381-443 | A printed request line within the length limit is recognized, whatever follows it |
| HttpText.ProbeRecoversQuery | src/service/http/protocol.hpp:205-244 | Method, path, parameters and version are recovered from a printed request line |
| HttpText.ScanPrinted | src/service/http/protocol.hpp:302-328 | A printed header section is read back as its header map, up to the empty line |
| RequestBuffer.RequestBuffer.AcceptChunk | src/service/server.hpp:109-139 | A chunk is appended and the request parsed further, or refused for its size with nothing changed |
| RequestBuffer.RequestBuffer.Append | src/service/server.hpp:115-134 | The new buffer holds the old bytes followed by the chunk |
| RequestBuffer.RequestBuffer.TryParseBuffer | src/service/server.hpp:141-164 | Probes once, then parses; a connection that is not HTTP stays so |
| RequestBuffer.AnySplitIsReassembled | src/service/server.hpp:109-164 | However the bytes after the header section are split, the answers are CONTINUE on all chunks but the last and COMPLETE on that, with exactly the body |
| RequestBuffer.BodylessRequest | src/service/http/protocol.hpp:335-357 | A bare header section is complete exactly when it has no Content-Length |
| RequestBuffer.ParseStaysInside | src/service/http/protocol.hpp:297-358 | Parsing never moves the end of the headers beyond the bytes read |
| HttpResponse.HttpResponse.Generate | src/service/http/protocol.hpp:153-183 | The buffer is exactly status line, headers in some order, Content-Length, empty line and body, and every copy stays inside it |
| HttpResponse.HttpResponse.WithBody | src/service/http/protocol.hpp:189-197 | A body is set once; a second one is refused |
| HttpResponse.CopyLines | src/service/http/protocol.hpp:169-175 | The lines are copied one after the other, and nothing behind them changes |
| HttpResponse.ResponseReadBack | src/service/http/protocol.hpp:153-183 | The request parser's header loop reads a response's headers back with Content-Length the size of the body, which follows them |
| HttpResponse.HeadersReadBack | src/service/http/protocol.hpp:157-163 | In any order of printing, the headers read back are the response's, with Content-Length replaced |
| Emphasis.Replace | src/parser/markdown.cpp:694-747 | The tag replacement writes the HTML of the text's tokens and tells whether all marks were closed |
| Emphasis.ReadMark | src/parser/markdown.cpp:706-740 | Which marker stands at a position, the longer one first |
| Emphasis.TokensCharacterized | src/parser/markdown.cpp:705-742 | The tokens are exactly the greedy, nesting sequence that spells the text: characters kept in order, markers turned into tags |
| Emphasis.OpenMarksAreExact | src/parser/markdown.cpp:704-742 | The tags begin a properly nested word, and the stack holds exactly the marks whose closing tags complete it |
| Emphasis.ClosedExactlyWhenNested | src/parser/markdown.cpp:704-746 | Status 0 is reported exactly for text whose tags are properly nested |
| Paragraph.ParagraphElement.TryParseText | src/parser/markdown.cpp:683-750 | A run of text up to the next special character becomes one block; it is illegal if a mark stays open |
| Paragraph.ParagraphElement.TryParseCode | src/parser/markdown.cpp:583-600 | Code up to the next backquote or the end of the line; never treated as text |
| Paragraph.ParagraphElement.TryParseInlineLatex | src/parser/markdown.cpp:602-619 | The same for formulas |
| Paragraph.ParagraphElement.TryParseLink | src/parser/markdown.cpp:621-661 | A footnote reference if there is one, else a link, else text; lines that are read past their end are told apart |
| Paragraph.ParagraphElement.TryParsePlainLink | src/parser/markdown.cpp:634-661 | A link if its parts are there, else text |
| Paragraph.ParagraphElement.TryParseFootnoteRef | src/parser/markdown.cpp:663-681 | A name up to the bracket or the end of the line, or no block at all if it is empty |
| Paragraph.ParagraphElement.ParseParagraph | src/parser/markdown.cpp:532-581 | All blocks of a line in order, the alignment its prefix asks for, and the status |
| Paragraph.StepCovers | src/parser/markdown.cpp:583-750 | Each step yields one block, advances, and the block printed from its raw contents is the text passed over |
| Paragraph.ParagraphIsTiled | src/parser/markdown.cpp:532-750 | A line that parses is spelled by its blocks: exactly, or with one missing closing delimiter at the very end |
| Paragraph.ParagraphRoundTrip | src/parser/markdown.cpp:532-750 | Printed blocks, with or without an alignment prefix, parse back to the same blocks; a link may lack an address unless it comes last |
| LineEnd.PastEndExactly | src/parser/markdown.cpp:621-661 | A line is read past its end if and only if steps that succeed lead to `[^` at its very end, or to any bracket if it has fewer than three characters |
| LineEnd.LongLinePastEnd | src/parser/markdown.cpp:532-640 | The case of three characters or more without the blanks around them: it ends in `[^` and that bracket is reached |
| LineEnd.ShortLinePastEnd | src/parser/markdown.cpp:634-642 | The case of fewer, by the characters alone |
| LineEnd.TextPastEnd | src/parser/markdown.cpp:621-632 | Plain text with `[^` at its end is read past its end if no mark stays open in it, and is illegal otherwise |
| LineEnd.PastEndExamples | src/parser/markdown.cpp:532-661 | One line that is read past its end, two that code keeps from it, and one that an open mark does |
| Blocks.BlockAdvances | src/parser/markdown.cpp:35-86 | Every block that succeeds takes at least one line and none goes beyond the last |
| Blocks.BlockLocal | src/parser/markdown.cpp:88-530 | No block parser depends on lines before its own, which earlier blocks may have overwritten |
| Blocks.ItemsLocal | src/parser/markdown.cpp:347-463 | The same for nested lists |
| Markdown.Markdown.ParseText | src/parser/markdown.cpp:532-581 | A fresh paragraph holds the blocks and alignment of the line |
| Markdown.Markdown.ParseItem | src/parser/markdown.cpp:353-397 | One item with its nested list: the item line, the look at the next line, which overwrites it, and the recursion; lines after the item do not change |
| Markdown.Markdown.ParseItemLine | src/parser/markdown.cpp:354-365 | What a line gives as an item: nothing, an exception, or the blocks behind its marker |
| Markdown.Markdown.LookAt | src/parser/markdown.cpp:372-397 | Whether the next line is a sibling, a nested list or the end, by marker and indentation |
| Markdown.Markdown.ParseItems | src/parser/markdown.cpp:347-463 | The list loops and their recursion give the list of the lines as they were before any overwriting, including the exception at the end of the text, and leave unread lines alone |
| Markdown.Markdown.ParseBlockquote | src/parser/markdown.cpp:206-229 | A quote is the lines up to the first without '>', as paragraphs, despite the writes to its first line |
| Markdown.Markdown.CollectQuote | src/parser/markdown.cpp:207-220 | The quoted lines as they were, although each has overwritten the first |
| Markdown.Markdown.ParseCodeblock | src/parser/markdown.cpp:231-283 | A code block is the lines up to the closing fence; unclosed, it is illegal |
| Markdown.Markdown.CollectCode | src/parser/markdown.cpp:262-274 | The lines before the fence as they were, although each has overwritten the opening one |
| Markdown.Markdown.ParseLatex | src/parser/markdown.cpp:285-321 | A formula on one line or on several, or the default |
| Markdown.Markdown.ParseDashPrefixLine | src/parser/markdown.cpp:323-345 | A rule for three dashes or more, else a list |
| Markdown.Markdown.ParseHeading | src/parser/markdown.cpp:179-204 | The level and the title without blanks around it |
| Markdown.Markdown.ParseFootnote | src/parser/markdown.cpp:88-113 | A footnote is filed under its name, or the default applies |
| Markdown.Markdown.ParseParagraph | src/parser/markdown.cpp:522-530 | A paragraph unless it is empty or illegal; the line is taken in any case |
| Markdown.Markdown.ParseTable | src/parser/markdown.cpp:797-873 | Titles, alignments and rows, the fallbacks, the illegal header and the exceptions |
| Markdown.Markdown.ParseRow | src/parser/markdown.cpp:853-864 | The cells that parse, in order; the others are dropped |
| Markdown.Markdown.ParseRows | src/parser/markdown.cpp:845-870 | Rows up to the first line that is none; a row of another width is kept but ends the table before it |
| Markdown.Markdown.ReadCells | src/parser/markdown.cpp:853-857 | Cuts a row at its bars |
| Markdown.Markdown.ReadTitles | src/parser/markdown.cpp:805-812 | The titles are the stripped cells of the first line |
| Markdown.Markdown.ReadAlignments | src/parser/markdown.cpp:819-838 | Each column is aligned as the colons of its cell say |
| Markdown.Markdown.ParseBlock | src/parser/markdown.cpp:52-83 | The block at the current line: success moves strictly forward, at most to the line count, and leaves all lines from there on unchanged |
| Markdown.Markdown.Parse | src/parser/markdown.cpp:35-86 | The document loop ends, and gives the blocks of the lines as they were at the start, up to the first that does not succeed |
| ListText.ItemListReadsBackExactly | src/parser/markdown.cpp:323-409 | Before any line that does not go on with it, a printed item tree parses back to itself if and only if every item after a nested list dedents by one level only or has no text, and the last item has no nested list or an empty line follows |
| ListText.ItemListRoundTrip | src/parser/markdown.cpp:323-409 | Followed by an empty line, it parses back to itself, up to that line, if and only if its items dedent so |
| ListText.ItemListAtEnd | src/parser/markdown.cpp:347-400 | With no line after it, it parses back if and only if in addition the last item has no nested list; if only that fails, an exception escapes |
| ListDepth.ListAtEndExactly | src/parser/markdown.cpp:347-400 | For every tree at the end of the text: an exception escapes if and only if the depth of the parser after the last line is not 0, it returns if and only if that is 0, and it is read past the end of a line otherwise |
| ListDepth.ListFollows | src/parser/markdown.cpp:347-400 | Each list of the recursion ends as the line by line depth says |
| ListDepth.NestedEndThrows | src/parser/markdown.cpp:347-400 | After any tree whose last item is nested an exception escapes, unless a text with a bracket in it is read past its end on the way |
| ListDepth.DeepDedentThrows | src/parser/markdown.cpp:347-400 | The example of a last item at the top that dedents by two levels: an exception escapes |
| ListDepth.OneMoreItemReturns | src/parser/markdown.cpp:347-400 | With one more item at the top behind it, none does |
| ListText.DeepDedentIsMisread | src/parser/markdown.cpp:385-397 | An example, four items of which the last dedents by two levels and has a text that parses without its first character: it joins the list of the level between, without that character |
| TableText.TableRoundTrip | src/parser/markdown.cpp:797-873 | A printed table parses back to its titles, alignments and cells, up to the first line that is no row |
| TableText.RowLineReadsBack | src/parser/markdown.cpp:846-864 | A printed row is recognized and cut into its cells |
| DocumentText.DocumentRoundTrip | src/parser/markdown.cpp:35-86 | Headings, paragraphs, quotes, code, formulas, rules, lists, tables, footnotes and recognized single lines, printed with an empty line behind each, parse back to just their elements and notes, in order, if and only if every list among them can be recovered |
| DocumentText.PartReadsBack | src/parser/markdown.cpp:88-530 | Each of them, wherever it stands, is read back as one block, and a list that cannot be recovered as another one |
| VectorKernels.XSum | src/utils/simd.hpp:42-62 | For any length and any number of lanes, the plain sum up to the wrap-around of 64 bits |
| VectorKernels.DistanceIp | src/utils/simd.hpp:64-127 | The left-to-right inner product for any length, and zero for different lengths |
| VectorKernels.XDistanceIp | src/utils/simd.hpp:129-149 | The same for any number of lanes |
| VectorKernels.ReductionIsSum | src/utils/simd.hpp:116-120 | The permutation and two horizontal additions leave the sum of all eight lanes in the lowest |
| VectorKernels.TailAdded | src/utils/simd.hpp:85-115 | The masked tail adds just the products of the remaining elements |
| TaskSequence.GenTaskSeq | src/task/m3u8_to_mp4.cpp:109-126 | The tasks' segments concatenate to the list, each task holds one to n / c, ids run from 1, there are just enough tasks of that size, and c to 2c - 1 of them |
| TaskSequence.CountBoundsAreTight | src/task/m3u8_to_mp4.cpp:111-116 | Both bounds on the number of tasks are reached |

## Left out

- Reading the clock and storing `last_refill_time` after a successful swap is one step of the protocol, and data races on the time points and on the client map are not modelled.
- Liveness: that a waiting thread is woken, or that a queued task is run at all.
- What a task does when run, apart from calling the executor, and the worker threads' start and end: `workers_` is reserved but never sized, so nothing is claimed about `join` waiting.
- `TaskScheduler`: it changes its queue between two looks without the lock.
- Rendering a post (parser and plugins) is an uninterpreted function of path, content, write time and page flag; the JSON library is a pair of functions of which only `Lossless` is assumed.
- SiteMaker.Maker.ObtainPost: the cache and the maker hold what a post shows instead of a shared pointer to it, so later changes through the pointer are not captured.
- PostCache.MakerCache.Load: a file that ends inside the magic number or the count counts as rejected, and byte order is little-endian.
- PostCache.MakerCache.LoadRecords: a file that ends inside a length field counts as an exception, where the source tests a number that was never set.
- SiteMaker.Maker.Parse: initializing the plugins and listing directories are inputs of the model; `std::sort` is an insertion sort of which only sortedness and permutation are used.
- Generating pages, index and feed, and copying files.
- Paragraph.ParagraphElement.TryParseCode: the HTML escaping of the code is not modelled.
- Markdown.Markdown.ParseItems: both list parsers are one method with a flag; the level counter, which nothing reads, is left out.
- Markdown.Markdown.ParseCodeblock: the language and attributes are kept as the raw rest of the opening line.
- Markdown.Markdown.ParseText: elements hold a paragraph's value instead of a shared pointer, and the list of all paragraphs kept for plugins is left out.
- Images and raw HTML elements: which lines are such is an uninterpreted function of the line.
- Metadata at the head of a document: parsing starts at a given line. The HTML of blocks other than runs of text is left out.
- ListText.ItemListReadsBackExactly: lists with numbered items are left out.
- HttpText.ScanPrinted: requests whose request line or header section arrives in pieces, percent-decoding and case-insensitive names are not handled by the source.
- VectorKernels.DistanceIp: exact reals stand for floats; rounding and alignment are left out.
- TaskSequence.GenTaskSeq: counters are unbounded where the source has 32 bits.
- Similarity search, SQLite, network, the news crawler and the embedder: input, output or libraries.
