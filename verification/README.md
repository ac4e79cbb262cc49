# IMServer: models and proofs

This project models the parts of an instant-messaging server in which a mistake is easiest to make
and hardest to see, and proves what they promise.

* **The lock-free queue** (`src/base/Concurrentqueue.h`), as four protocols. Each is a transition
  system over program counters: every step performs one atomic access, any number of threads
  interleave freely, and memory is sequentially consistent.
  * `FreeList`: the reference-counted CAS free list, on raw 32-bit reference words.
  * `Tickets`: the optimistic-count and overcommit protocol by which consumers win index ranges, first
    on unbounded counters, then on wrapping words that refine them.
  * `BlockQueue`: the ring of blocks with its growable circular index, one enqueueing producer and any
    number of consumers that got their claims from `Tickets`.
  * `ProducerHash`: the chain of linear-probing tables from thread id to producer, with resizing and
    lazy migration.
  * `ModularCounters`: the wrap-around arithmetic beneath them.
* **The Redis client** (`third/redis_client/hiredis.c`). `RedisProtocol` is a recursive grammar of
  replies; `RedisReader` is the incremental reader with its buffer, cursor and task stack, shown to
  hand out the grammar's replies however the bytes arrive; `RedisFormat` holds both command formatters
  and reads their output back.
* **The hash table of the Redis client** (`third/redis_client/dict.c`) in `RedisDict`: it answers like a
  finite map across rehashing, and survives deletion during iteration.
* **The HTTP parser** (`src/core/HttpParser.cpp`). `HttpStates` is the state machine byte by byte,
  `HttpParser` the call as the source runs it (marks, inner loops, searches, bulk bodies) proved to agree
  with it, `HttpRuns`, `HttpMessages`, `HttpHeaders` and `HttpValues` what follows for cut streams, lengths,
  chunks, header names and values; `HttpStartLines`, `HttpBodies` and `HttpFraming` put these together to streams of
  whole messages. All request and response states are there, in strict mode.
* **The JSON library** (`src/base/cJSON.c`, `src/base/cJSON_Utils.c`). `JsonText` says what a tree prints
  as and what a text reads as; `JsonParse`, `JsonBuffered`, `JsonAssembled` and `JsonMinify` are the
  source's loops over buffers, proved against it; `JsonPointer` and `JsonMerge` are JSON Pointer
  (RFC 6901) and JSON Merge Patch (RFC 7396).
* **The TCP framer** (`src/core/TcpServer.cpp`) in `TcpFramer`.

Every protocol, parser and loop is modelled with the source's own branches, constants and error cases.
Where the source is imperative, so is the model: methods with loop invariants, classes whose methods
update fields and arrays, each tied to a specification about which the lemmas speak.

Check the project with `dafny verify dfyconfig.toml` (Dafny 4.11).

## Where the code differs from what is said about it

* The queue asserts `overcommit <= myDequeueCount` on wrapped words (line 1898, line 2170). On counters it
  always holds; on words it holds exactly when adding their wrapped difference to the overcommit's word does
  not wrap (`Tickets.OvercommitAssertOnWords`), and there is a run in which it fails
  (`Tickets.OvercommitAssertFails`).
* Between words, the queue sees the number of available elements modulo the range, and takes the upper half of the
  range for none (`Tickets.SeemsExactly`). A consumer overtaken while it holds a ticket may so take a queue with
  elements for empty (`Tickets.WindowCanBeLeft`). The steps on words are those on counters exactly when this does
  not change a comparison or the amount taken (`Tickets.WordsRefine`, `Tickets.WordRunRefines`).
* The comment before line 1930 explains a signed division. The divisor is an unsigned size, so the
  operand is converted back and the division is unsigned; the slot is right all the same
  (`ModularCounters.MaskedSlotFindsBlock`).
* Generating a merge patch and applying it does not always give the target. A null member that the source does
  not have is taken for a removal (`JsonMerge.NullIsLost`). And the members are sorted ignoring case but walked
  with strcmp: with upper-case letters the two orders differ, and the patch can remove members that both trees
  have (`JsonMerge.UpperCaseIsLost`) or one whose name changes in case only (`JsonMerge.CaseChange`).
  `JsonMerge.GenerateThenMerge` says for all pairs exactly when it works; names without upper-case letters are
  safe from the second fault (`JsonMerge.LowerAligned`, `JsonMerge.AlignedTakes`).
* Nor is the patch absent for two objects that differ in the case of names only, although `cJSONUtils_Compare`
  calls them equal (`JsonMerge.GeneratedAbsent`).
* `cJSON_Minify` reads on behind the end of a text with a literal or a block comment that is never closed
  (`JsonPieces.MinifyExactly`).
* Following the pointer built for a node leads to another node when an earlier sibling's name differs
  from a name on the path in case only (`JsonPointer.PointerLeadsElsewhere`; `JsonPointer.PointerLeadsBack`
  gives the exact condition).
* The HTTP parser means to skip tabs after a comma in a Connection header (line 1637), but compares the
  lower-cased character, which is never a tab: the options behind are not seen
  (`HttpValues.TabHidesOption`). Nor is the element behind an option that is cut off, as in `clo,close`
  (`HttpValues.CutOffHidesOption`). `HttpValues.ConnectionFlags` says for every value what is seen.
* An illegal byte in a plain header value is refused exactly when the loop over the value starts at it
  (`HttpParser.Parser.ReadValue`), because the search for the end of the line looks for nothing else: whether
  such a value passes depends on how the bytes are cut.
* A Transfer-Encoding that names another coding in front of `chunked` is not taken for chunked, although section
  3.3.3 of RFC 7230 then has the body in chunks (`HttpValues.ChunkedValue`).
* `_dictNextPower` does not return a power of two for sizes from LONG_MAX on (`RedisDict.NextPower`).
* When the TCP framer skips garbage, frames behind it are thrown away with it if one byte more of them than
  of the garbage has arrived (`TcpFramer.LostExactly`, `TcpFramer.FrameLost`). And a frame whose last bytes
  arrive as fewer than 27 is held back until more bytes come (`TcpFramer.HeldBack`).

## Model

| member | source | states |
|---|---|---|
| FreeList.StepKeepsInv | src/base/Concurrentqueue.h:1362-1441 | every atomic step of `add`, `try_get` and `add_knowing_refcount_is_zero`, by any thread in any interleaving, keeps the invariant that ties each node's reference word, owner and life-cycle stage to the chain and to what every thread has read |
| FreeList.RunKeepsInv | src/base/Concurrentqueue.h:1362-1441 | the invariant holds in every state of every run from an empty list, for any number of threads and nodes |
| FreeList.NeverStuck | src/base/Concurrentqueue.h:1362-1441 | in every reachable state a thread inside an operation can take its next step: no load goes through a null or foreign pointer |
| FreeList.OwnershipIsExclusive | src/base/Concurrentqueue.h:1362-1409 | in every reachable state the chain from `freeListHead` is finite and without repetition, no node held by a client is on it, and no thread is publishing or returning such a node |
| FreeList.HandedOutUntilAdded | src/base/Concurrentqueue.h:1378-1409 | over any continuation of a run, a node handed to a client stays with it, and `try_get` hands it to nobody, until that client adds it or gives it away |
| FreeList.RefsAccounting | src/base/Concurrentqueue.h:1369-1408 | the low 31 bits of `freeListRefs` are the threads holding a reference, plus one for list membership, for a publish in flight, or for a node just popped (whose popper so holds two); the top bit is set exactly when the node waits for its last reader to publish it |
| FreeList.PoppedNodeUnflagged | src/base/Concurrentqueue.h:1393-1399 | the assert after the head CAS holds: a popped node does not carry SHOULD_BE_ON_FREELIST |
| FreeList.HeadCasInstallsCurrentNext | src/base/Concurrentqueue.h:1385-1392 | no ABA: a successful head CAS installs the popped node's current `next`, which is the second node of the chain |
| FreeList.NothingIsLost | src/base/Concurrentqueue.h:1369-1376 | a node neither held nor listed is in the hands of a thread that will publish or return it, or is still referenced by a reader; the last reader to let go publishes it |
| FreeList.QuiescentListIsComplete | src/base/Concurrentqueue.h:1362-1441 | with no operation under way every node is held by a client or listed, and never both |
| Tickets.StepKeepsInv | src/base/Concurrentqueue.h:1875-1964 | every step of `dequeue` and `dequeue_bulk` by any number of consumers keeps the ticket invariant, whatever the producer enqueues meanwhile |
| Tickets.HeadNeverPassesTail | src/base/Concurrentqueue.h:1875-1918 | `headIndex <= tailIndex` in every reachable state, even counting what threads have decided to claim but not claimed yet |
| Tickets.ClaimedExactlyOnce | src/base/Concurrentqueue.h:1912-1918 | the claims made so far are disjoint, in order, below the tail, and together cover every index below the head exactly once |
| Tickets.TicketsBalance | src/base/Concurrentqueue.h:2159-2179 | `dequeueOptimisticCount - dequeueOvercommit - headIndex` is the number of tickets in flight, and 0 when no operation is under way |
| Tickets.OvercommitBelowTicket | src/base/Concurrentqueue.h:1898 | the assert `overcommit <= myDequeueCount` holds of the counters |
| Tickets.OvercommitAssertOnWords | src/base/Concurrentqueue.h:1898 | on machine words the same assert holds exactly when adding the wrapped difference of the counters to the overcommit's word does not wrap, whatever the counters are |
| Tickets.OvercommitAssertInRun | src/base/Concurrentqueue.h:1898 | so it is for every thread that has just taken a ticket in any run, where the counters themselves satisfy the assert |
| Tickets.OvercommitAssertFails | src/base/Concurrentqueue.h:1898 | it can fail: two consumers race for one element, 2^w tickets later the words are 1 and 0; every comparison on the way is inside the window |
| Tickets.SeemsExactly | src/base/Concurrentqueue.h:1879-1904 | on words both tests for elements see the number of available elements modulo the range: they say yes exactly when that lies strictly between 0 and half the range, whatever the counters are |
| Tickets.WordsRefine | src/base/Concurrentqueue.h:1875-1918 | a step taken on wrapping words is the image of the step on unbounded counters exactly when its comparison agrees: none available does not show in the lower half of the range, some do, and for a bulk claim no fewer than the limit where a multiple of the range is lost |
| Tickets.WordRunRefines | src/base/Concurrentqueue.h:1875-1964 | a run on words is the image of the run on counters, up to any point, exactly when every comparison up to there agrees |
| Tickets.WindowAgrees | src/base/Concurrentqueue.h:1893-1903 | comparisons of counters less than half the range apart agree |
| Tickets.WindowCanBeLeft | src/base/Concurrentqueue.h:1893-1903 | a comparison need not agree: a consumer with the first ticket, overtaken by half the range of dequeues, gives its ticket back on words although an element is there |
| Tickets.ComparisonsAgree | src/base/Concurrentqueue.h:2159-2167 | the test of `dequeue_bulk`, which subtracts first, decides the same as the test of `dequeue` |
| Tickets.SizeApproxBetween | src/base/Concurrentqueue.h:1653-1658 | `size_approx`, whose head is read later than its tail, never answers more than the number of elements at either time, while the counters read are less than half the range apart |
| BlockQueue.StepKeepsInv | src/base/Concurrentqueue.h:1770-1957 | every step of one enqueueing producer and of any number of consumers keeps the invariant over the ring of blocks, the block index, the empty flags and the claims |
| BlockQueue.FirstInFirstOut | src/base/Concurrentqueue.h:1770-1957 | in every reachable state every claimed index has been delivered with the value enqueued at it or is still in the hands of its claimer, so the k-th claim returns the k-th element; nothing is delivered twice |
| BlockQueue.ReadsEachElementOnce | src/base/Concurrentqueue.h:1936-1956 | each element is moved out once, from a cell that still holds what was enqueued at its index |
| BlockQueue.NothingHeldIsReused | src/base/Concurrentqueue.h:1774-1786 | no block is re-used and no index slot overwritten while a claimed element in it is unread or unflagged |
| BlockQueue.IndexListsRing | src/base/Concurrentqueue.h:2266-2303 | between enqueues the last `pr_blockIndexSlotsUsed` entries list the ring's blocks in order, each block linked to the next, with consecutive multiples of the block size as bases |
| BlockQueue.GrownIndexOk | src/base/Concurrentqueue.h:2266-2303 | growing the index preserves this: the copied entries, oldest first, cover the same blocks in the same order |
| BlockQueue.CopyUsedEntries | src/base/Concurrentqueue.h:2280-2288 | the copying loop of `new_block_index` runs round the old index and copies exactly the used entries, oldest first |
| BlockQueue.ConsumerNeverStuck | src/base/Concurrentqueue.h:1920-1957 | in every reachable state a consumer inside an operation can always take its next step: every index look-up finds a block |
| BlockQueue.ProducerNeverStuck | src/base/Concurrentqueue.h:1770-1870 | the producer can always take its next step, whether or not an allocation fails |
| BlockQueue.HeadTailWindow | src/base/Concurrentqueue.h:1788-1802 | head and tail, with one more block, are never more than half the range of words apart, because the blocks of the ring fit in memory |
| BlockQueue.TestsOnWords | src/base/Concurrentqueue.h:1793-1796 | so the assert before the room test holds, the room test on words says exactly that one more block would reach half the range or pass the size limit, and `size_approx` counts the elements |
| BlockQueue.QuiescentAllDelivered | src/base/Concurrentqueue.h:1770-1957 | with every thread idle all claimed elements were delivered and no ticket is left over |
| ProducerHash.StepKeepsInv | src/base/Concurrentqueue.h:3299-3427 | every step of any number of threads in `get_or_add_implicit_producer`, resizes and lazy migration included, keeps the invariant |
| ProducerHash.AlwaysAFreeSlot | src/base/Concurrentqueue.h:3303-3345 | every table always keeps a free slot, which every probe sequence reaches within its capacity |
| ProducerHash.ProbeLoopsEnd | src/base/Concurrentqueue.h:3302-3340 | the probe loops end: a thread's own steps lower a bound on its remaining probes, and no step of another thread raises it |
| ProducerHash.SameProducerAlways | src/base/Concurrentqueue.h:3299-3427 | a thread that once obtained a producer gets that same producer from every later call, across all resizes and migrations of others, and is counted once |
| ProducerHash.ProducersExclusive | src/base/Concurrentqueue.h:3299-3427 | two threads never share a producer |
| ProducerHash.CountIsExact | src/base/Concurrentqueue.h:3344-3399 | in every reachable state the counter is the number of threads that have a producer and of those between counting themselves in and getting one; between calls, the number of threads whose last call returned one |
| ProducerHash.ResizerInserts | src/base/Concurrentqueue.h:3352-3390 | the thread that has published a larger table finds room in it without waiting |
| ProducerHash.ProbeAdvances | src/base/Concurrentqueue.h:3302-3340 | masking the probe index after each increment visits the same slots as masking once |
| ProducerHash.GrowCapacity | src/base/Concurrentqueue.h:3358-3361 | of the doublings of twice the capacity the loop computes the first whose half exceeds the count, and no smaller one does |
| ModularCounters.CircularLessThanExactly | src/base/Concurrentqueue.h:395-407 | whatever the counters are, their words compare as less exactly when the wrapped difference lies strictly between 0 and half the range |
| ModularCounters.CircularLessThanDecides | src/base/Concurrentqueue.h:395-407 | on counters at most half the range apart comparing the words decides their order, except exactly when the first is half the range behind the second |
| ModularCounters.SizeApproxCounts | src/base/Concurrentqueue.h:1653-1658 | whatever two counters are read, `size_approx` is their wrapped difference, or 0 when that is in the upper half of the range; less than half the range apart, the number of elements between them, or 0 |
| ModularCounters.MaskedSlotFindsBlock | src/base/Concurrentqueue.h:1928-1934 | for every offset, wrapped or negative, the masked computation lands on the slot of the element's block, because index size times block size divides the word range |
| ModularCounters.LowMaskIsRemainder | src/base/Concurrentqueue.h:1934 | `x & (2^k - 1)` is the remainder modulo 2^k |
| ModularCounters.HighMaskClearsRemainder | src/base/Concurrentqueue.h:1931 | `x & ~(2^k - 1)` clears the remainder modulo 2^k |
| RedisProtocol.ItemExtends | third/redis_client/hiredis.c:410-440 | the reference grammar never changes a reply or an error that is already there when more bytes arrive |
| RedisProtocol.StreamExtends | third/redis_client/hiredis.c:550-595 | the replies of a byte string are the first replies of every longer one, and a first error stays |
| RedisReader.Reader.Feed | third/redis_client/hiredis.c:533-548 | feeding appends the bytes and leaves everything read so far as it was |
| RedisReader.SeekNewline | third/redis_client/hiredis.c:187-211 | finds the first CR LF of the buffer or reports that there is none, stepping over a CR that is followed by something else |
| RedisReader.ReadLongLong | third/redis_client/hiredis.c:215-240 | reads the number at the start of a line, -1 for what is not a number, and detects what overflows the source's arithmetic |
| RedisReader.Reader.MoveToNextTask | third/redis_client/hiredis.c:257-280 | pops finished arrays off the stack or goes on to the next element: the place reached is the one after delivering the item to the innermost open array |
| RedisReader.Reader.CreateObject | third/redis_client/hiredis.c:120-174 | the object made is put into the next empty slot of its parent; every other object already there stays as it is, and of the parent only that slot changes |
| RedisReader.Reader.ProcessItem | third/redis_client/hiredis.c:410-461 | one item is consumed, or is incomplete, or fails the reply, exactly as the grammar says at that nesting level; success strictly shrinks the unread bytes; the stack index stays within 0 to 8 |
| RedisReader.Reader.ProcessItems | third/redis_client/hiredis.c:560-568 | items are processed until the reply is complete, in error or short of bytes |
| RedisReader.Reader.GetReply | third/redis_client/hiredis.c:550-595 | the reply handed out is the next reply of the grammar on all bytes fed; none means there is no further complete one; an error is reported exactly when the grammar fails there |
| RedisReader.ReadFragments | third/redis_client/hiredis.c:533-595 | whatever fragments the bytes come in, the objects handed out denote, when all is read, the replies of the grammar on the concatenated bytes, and the first error is the grammar's |
| RedisReader.DeliverCorrect | third/redis_client/hiredis.c:257-280 | delivering an item to the open arrays completes the same reply as parsing on recursively |
| RedisReader.LinkedFrame | third/redis_client/hiredis.c:142-174 | objects allocated later leave the arrays under construction as they are |
| RedisReader.SdsRangeDrops | third/redis_client/hiredis.c:570-577 | dropping the consumed part keeps exactly the unread bytes, also at its two boundary cases |
| RedisFormat.IntLen | third/redis_client/hiredis.c:598-609 | `intlen` is the number of decimal digits |
| RedisFormat.FormatCommandArgv | third/redis_client/hiredis.c:783-816 | writes exactly `totlen` bytes, which are the protocol form of the arguments, and a NUL |
| RedisFormat.RoundTrip | third/redis_client/hiredis.c:783-816 | a formatted command reads back as the array of its arguments, binary content included, whatever follows it |
| RedisFormat.PipelineRoundTrip | third/redis_client/hiredis.c:783-816 | a pipeline of formatted commands is a stream of exactly those commands |
| RedisFormat.ReadCommandBack | third/redis_client/hiredis.c:533-595 | the reader gives a formatted command back under any fragmentation: one object, the array of its arguments |
| RedisFormat.ScanFormat | third/redis_client/hiredis.c:619-755 | the scanning loop over a format string of %s, %b and %% collects exactly the arguments that its words stand for, and the total length they need |
| RedisFormat.FormatCommand | third/redis_client/hiredis.c:619-767 | `redisvFormatCommand` yields the same bytes as formatting the argument list its format stands for |
| RedisFormat.WordsSplit | third/redis_client/hiredis.c:640-655 | blanks separate arguments, whatever stands on either side |
| RedisFormat.WordsWhole | third/redis_client/hiredis.c:656-735 | pieces without a blank between them are one argument, empty ones included |
| HttpStates.RunSplits | src/core/HttpParser.cpp:636-2130 | what a run does with x and y in one piece is what it does with x and then, if it got through x, with y: same fields, same notifications, same data |
| HttpParser.EveryActRight | src/core/HttpParser.cpp:679-2105 | every pass sets and hands over data marks exactly where the collected data starts and ends, so no byte is lost or handed over twice |
| HttpParser.OneMark | src/core/HttpParser.cpp:2109-2113 | at most one mark is set: the assert at the end of the buffer |
| HttpParser.PassStep | src/core/HttpParser.cpp:704-2105 | a pass with its marks and callbacks is a step of the byte automaton |
| HttpParser.Parser.ReadName | src/core/HttpParser.cpp:1306-1438 | the loop over a header's name does what the automaton does byte by byte |
| HttpParser.Parser.ReadValue | src/core/HttpParser.cpp:1523-1726 | the loop over a header's value, the search for the end of a plain value included, does what the automaton does byte by byte, while the value has no illegal byte; a plain value is refused for an illegal byte exactly when the first byte that the loop looks at is one |
| HttpParser.SearchedBytes | src/core/HttpParser.cpp:1552-1576 | the `memchr` skip takes the bytes the automaton takes one by one; the limit on the search never hides a line end from a header within the size limit |
| HttpParser.FindLineEnd | src/core/HttpParser.cpp:1552-1576 | the two searches find the first CR or LF within the limit |
| HttpParser.Parser.TakeBody | src/core/HttpParser.cpp:1919-1960 | bodies taken in bulk are the bytes the automaton takes one by one; the last byte is executed again when the body ends |
| HttpParser.Parser.Turn | src/core/HttpParser.cpp:704-2105 | one turn of the loop over the buffer; a chunk size starts with `nread == 1` |
| HttpParser.Parser.Execute | src/core/HttpParser.cpp:636-2130 | the whole call agrees with the automaton on its bytes: fields, return value, notifications and data, provided no header is too long for every cutting and no value has an illegal byte |
| HttpParser.Parser.AtEof | src/core/HttpParser.cpp:652-675 | an empty buffer does nothing after an error; else it completes a body that lasts until the connection closes, is fine between messages, and is an error everywhere else |
| HttpRuns.ExecuteAll | src/core/HttpParser.cpp:636-2130 | a stream fed in any pieces, by a caller that stops at an error or an upgrade, ends with the same fields, notifications and data as one run over all of it; when that run meets an error, the last call stops at the same byte with the same fields |
| HttpRuns.RunUpgrade | src/core/HttpParser.cpp:1807-1970 | while a run goes on an upgrade is pending only behind the header of its message, and a run that leaves for another protocol leaves between messages: so checking `upgrade` there tells the caller to stop, and nothing else does |
| HttpRuns.RunErrors | src/core/HttpParser.cpp:2123-2129 | a run sets an error exactly when it says that it failed |
| HttpRuns.RunSane | src/core/HttpParser.cpp:1919-2090 | the asserts of the body states hold in every run: chunk states only in chunked messages, remaining lengths neither 0 nor ULLONG_MAX; matchers never pass the end of their word, so `index` fits its seven bits |
| HttpRuns.NewParserSane | src/core/HttpParser.cpp:1919-2090 | in particular in every run of a new parser |
| HttpRuns.AccumulateExactly | src/core/HttpParser.cpp:1584-1609 | a length is accepted exactly when its numeral without the last digit passes the guard; the 64-bit register then holds the numeral's value, below ULLONG_MAX |
| HttpRuns.NoWrap | src/core/HttpParser.cpp:2010-2025 | behind the guard the 64-bit multiplication and addition do not wrap |
| HttpMessages.OneChunk | src/core/HttpParser.cpp:1971-2090 | from any well-formed size line a chunk's data, and nothing else, is handed to on_body, between one on_chunk_header and one on_chunk_complete |
| HttpMessages.ManyChunks | src/core/HttpParser.cpp:1971-2090 | any number of chunks one after the other |
| HttpBodies.OneLine | src/core/HttpParser.cpp:1256-1805 | a header line, its value possibly empty, gives exactly its name and its value, and leaves the matcher's verdict in the flags |
| HttpBodies.ManyLines | src/core/HttpParser.cpp:1256-1805 | any number of header lines, each well formed behind the ones before it |
| HttpBodies.ChunkedBody | src/core/HttpParser.cpp:1971-2094 | a chunked body (section 4.1 of RFC 7230) with any trailer fields hands over exactly the data of its chunks, a name and a value for every trailer, and on_message_complete fires once |
| HttpFraming.TrailersDeliverNothing | src/core/HttpParser.cpp:2035-2050 | behind the last chunk, whatever bytes follow, none of them is handed over as body, and a run that gets to the end of the message tells exactly one completion |
| HttpMessages.IdentityBody | src/core/HttpParser.cpp:1919-1969 | a body of declared length hands over exactly its bytes, and on_message_complete fires once |
| HttpMessages.EofBody | src/core/HttpParser.cpp:1956-1960 | a body without a length hands over all bytes until the connection closes |
| HttpHeaders.NameMatched | src/core/HttpParser.cpp:1256-1420 | a header is taken for Connection, Content-Length, Transfer-Encoding or Upgrade exactly when its name, in any case, is that name (or proxy-connection) |
| HttpHeaders.FoldWord | src/core/HttpParser.cpp:1341-1420 | from the middle of a word a matcher ends matched on exactly the rest of the word, still matching on a beginning of it, given up on anything else |
| HttpHeaders.HeaderName | src/core/HttpParser.cpp:1256-1438 | a header line's name is handed over whole, and the matcher's verdict is the state behind the colon |
| HttpHeaders.LengthValue | src/core/HttpParser.cpp:1480-1609 | the value of a Content-Length line sets the length to the value of its digits, the spaces among them skipped |
| HttpValues.ValueLine | src/core/HttpParser.cpp:1464-1773 | any value that is not a length is handed over whole, and at the end of its line the matcher's verdict is in the flags |
| HttpValues.ChunkedValue | src/core/HttpParser.cpp:1464-1625 | the matcher says chunked exactly when the Transfer-Encoding value is "chunked", in any case, followed by spaces at most |
| HttpValues.ChunkedFlag | src/core/HttpParser.cpp:1616-1758 | and then, and only then, the line sets the chunked flag; it sets no other |
| HttpValues.ConnectionFlags | src/core/HttpParser.cpp:1495-1711 | for every Connection value the flags set are those of the list elements that are looked at: reading ends at an element that does not start as a token, and skips the element behind a cut-off option |
| HttpValues.OptionsNamed | src/core/HttpParser.cpp:1645-1711 | each of keep-alive, close and upgrade is set exactly when one of these elements is that word, in any case, with spaces behind it at most |
| HttpValues.ValueRead | src/core/HttpParser.cpp:1623-1711 | a value that is a list of tokens with commas and spaces between them is looked at to its end when no element but the last is a beginning of an option |
| HttpValues.TabHidesOption | src/core/HttpParser.cpp:1623-1643 | behind a comma a tab hides the option `close`, a space does not |
| HttpValues.CutOffHidesOption | src/core/HttpParser.cpp:1657-1667 | in `clo,close` the option is not seen |
| HttpStartLines.MethodExactly | src/core/HttpParser.cpp:958-1060 | of all words exactly the names of the 33 methods are taken for methods, each for its own, although the parser starts from a guess by the first letter and corrects it on the way |
| HttpStartLines.MethodRead | src/core/HttpParser.cpp:958-1060 | the first word of a request begins a message with that method, or is refused as an invalid method when it is no method's name |
| HttpStartLines.UrlRead | src/core/HttpParser.cpp:1061-1132 | a URL that the URL machine accepts is handed over whole |
| HttpStartLines.OriginFormIsUrl | src/core/HttpParser.cpp:489-634 | it accepts every path with a query (section 5.3.1 of RFC 7230) |
| HttpStartLines.StartRead | src/core/HttpParser.cpp:762-1254 | a request line or a status line begins a message, hands over its URL or its reason, and sets method, version and status |
| HttpFraming.HeadersDeclare | src/core/HttpParser.cpp:1256-1805 | behind any header lines the chunked flag is set exactly when one of them says `Transfer-Encoding: chunked`, the length flag exactly when one is a Content-Length, and the length is the one announced |
| HttpFraming.OnlyLength | src/core/HttpParser.cpp:1480-1609 | a Content-Length line is the only one, and the length is the value of its digits |
| HttpFraming.WholeMessage | src/core/HttpParser.cpp:1256-2094 | from behind the start line to the end of the body: every header line gives its name and its value, the body that the header lines announce is handed over and no other byte, and the message is complete once |
| HttpFraming.StreamRead | src/core/HttpParser.cpp:636-2130 | messages on one connection, start lines included, are read one after the other, each where the one before has left the parser |
| HttpFraming.StreamDelivers | src/core/HttpParser.cpp:636-2130 | in these notifications the body bytes are the bodies of the messages in order, and there are as many completions as messages |
| HttpFraming.FeedStream | src/core/HttpParser.cpp:636-2130 | a stream of messages that arrives in any pieces gives the callbacks exactly its names, values and bodies, and one completion for each message |
| JsonText.RoundTrip | src/base/cJSON.c:195-661 | parsing the printed text of any tree of 32-bit integers, NUL-free strings, literals, arrays and objects gives the tree back, formatted or not |
| JsonText.ValueReads | src/base/cJSON.c:362-552 | at any depth and in any surroundings a printed value reads back as itself and stops where it ends |
| JsonText.EndEscape | src/base/cJSON.c:201-202 | the measuring loop never takes an escaped byte for the end of its literal |
| JsonText.Utf8Correct | src/base/cJSON.c:218-247 | every Unicode scalar value is written as the well-formed UTF-8 sequence that stands for it (section 3 of RFC 3629) |
| JsonText.EscapedPointScalar | src/base/cJSON.c:218-238 | a \u escape or a surrogate pair stands for its unit, or for the scalar value beyond the basic plane |
| JsonParse.WriteUtf8 | src/base/cJSON.c:238-247 | the backward writing loop writes the UTF-8 form of the code point |
| JsonParse.SurrogateBits | src/base/cJSON.c:232-236 | the shifts and masks combine a surrogate pair to its code point |
| JsonParse.ScanLiteral | src/base/cJSON.c:201-202 | the measuring loop finds the closing quote and counts the rounds up to it |
| JsonParse.UnicodeUnit | src/base/cJSON.c:201-247 | a \u escape or a pair takes more rounds of the measuring loop than bytes it decodes to |
| JsonParse.ReadString | src/base/cJSON.c:195-254 | `parse_string` decodes a closed literal to what the grammar says, within the allocation measured for it |
| JsonParse.ReadNumber | src/base/cJSON.c:98-117 | `parse_number` on integers |
| JsonParse.ReadValue | src/base/cJSON.c:362-374 | `parse_value` is the grammar of JsonText on every text |
| JsonParse.ReadArray | src/base/cJSON.c:411-436 | the child list built in the loop is the array's elements in order |
| JsonParse.ReadObject | src/base/cJSON.c:519-552 | the child list built in the loop is the object's members in order |
| JsonParse.ParsePrinted | src/base/cJSON.c:329-345 | `cJSON_Parse` of a printed tree gives the tree back |
| JsonPieces.MinifyExactly | src/base/cJSON.c:741-756 | the source stays inside a text exactly when the text is made of blanks, comments, closed literals and other bytes; otherwise it ends in a literal or a block comment that is never closed, and the source reads on behind the NUL |
| JsonPieces.MinifyCut | src/base/cJSON.c:741-756 | of a text made of such pieces the literals and other bytes are kept, in order, and nothing else |
| JsonMinify.MinifyFormatted | src/base/cJSON.c:741-756 | minifying the formatted text of a tree gives its unformatted text |
| JsonMinify.MinifyInPlace | src/base/cJSON.c:741-756 | `cJSON_Minify` in its one array computes the minified text of every text it stays inside of: writing never overtakes reading |
| JsonPrint.PrintHasNoNul | src/base/cJSON.c:257-313 | printed text contains no NUL, so its end can be found again |
| JsonPrint.WriteString | src/base/cJSON.c:257-313 | `print_string_ptr` writes the quoted and escaped form into exactly the room it computed |
| JsonPrint.PrintBuffer.Ensure | src/base/cJSON.c:123-138 | `ensure` makes room at the offset and preserves what was written |
| JsonPrint.PrintBuffer.Update | src/base/cJSON.c:140-146 | `update` moves the offset behind the text written at it |
| Bits.Pow2GtLeast | src/base/cJSON.c:119 | `pow2gt` computes the least power of two that is not below a 32-bit number |
| JsonBuffered.PrintInto | src/base/cJSON.c:377-408 | printing a value into the growing buffer leaves the old contents in front and the value's text behind them |
| JsonBuffered.PrintArrayInto | src/base/cJSON.c:458-482 | arrays, element by element |
| JsonBuffered.PrintObjectInto | src/base/cJSON.c:575-607 | objects, member by member, formatted or not |
| JsonBuffered.PrintBuffered | src/base/cJSON.c:351-358 | `cJSON_PrintBuffered` gives the text of the tree for every tree, format flag and positive initial size |
| JsonAssembled.PrintNew | src/base/cJSON.c:377-408 | printing with separately allocated pieces gives the text of the tree |
| JsonAssembled.PrintArrayNew | src/base/cJSON.c:484-514 | the length added up in the first pass over an array is enough for the second pass |
| JsonAssembled.PrintObjectNew | src/base/cJSON.c:608-661 | the same for objects |
| JsonAssembled.PrintersAgree | src/base/cJSON.c:348-358 | the buffered and the unbuffered printer give the same text, byte for byte |
| JsonPointer.MatchesExactly | src/base/cJSON_Utils.c:17-26 | a name matches a reference token exactly when it is, ignoring case, the name the token stands for (section 4 of RFC 6901) |
| JsonPointer.DecodeEncode | src/base/cJSON_Utils.c:28-39 | decoding ~0 and ~1 inverts the encoding, and an encoded name has no slash |
| JsonPointer.FindsNode | src/base/cJSON_Utils.c:41-72 | the search finds every node and builds the tokens of its path |
| JsonPointer.PointerLeadsBack | src/base/cJSON_Utils.c:74-92 | following the pointer to a node leads back to it exactly when no earlier sibling of a member on the path has the same name ignoring case |
| JsonPointer.PointerLeadsElsewhere | src/base/cJSON_Utils.c:41-92 | in {"a": 1, "A": 2} the pointer built for the second member leads to the first |
| JsonPointer.FindThenGet | src/base/cJSON_Utils.c:41-92 | `GetPointer(o, FindPointerFromObjectTo(o, t))` is t exactly for such nodes |
| JsonPointer.EveryNodeIsFoundAgain | src/base/cJSON_Utils.c:41-92 | in a tree whose sibling names are distinct ignoring case every node is found again |
| JsonPointer.ComparePointer | src/base/cJSON_Utils.c:17-26 | the comparison loop decides the match |
| JsonPointer.EncodeInto | src/base/cJSON_Utils.c:28-39 | the copying loop writes exactly the measured length and a NUL |
| JsonPointer.FollowPointer | src/base/cJSON_Utils.c:74-92 | the token loop follows the pointer |
| JsonPointer.SearchPointer | src/base/cJSON_Utils.c:41-72 | the recursive search with its allocations returns the text of the pointer |
| JsonMerge.SortAscends | src/base/cJSON_Utils.c:308-344 | `SortList` puts the names in order, ignoring case, also when names come up more than once |
| JsonMerge.SortItems | src/base/cJSON_Utils.c:308-344 | `SortList` keeps exactly the members it is given |
| JsonMerge.SortMeaning | src/base/cJSON_Utils.c:308-344 | and so, where sibling names are distinct ignoring case, what the object stands for |
| JsonMerge.SortList | src/base/cJSON_Utils.c:308-344 | the sorting method, on every list: test, split in the middle, recurse and merge |
| JsonMerge.CompareDecides | src/base/cJSON_Utils.c:117-142 | where sibling names are distinct ignoring case, `Compare` returns 0 exactly when the trees are equal up to the order of members and the case of their names |
| JsonMerge.CompareTrees | src/base/cJSON_Utils.c:117-142 | the comparing loops, on all trees |
| JsonMerge.MergeRefines | src/base/cJSON_Utils.c:348-365 | `MergePatch` is the procedure of section 2 of RFC 7396 on maps from lower-cased names, for every target whose sibling names are distinct ignoring case, and also for patches that name a member more than once |
| JsonMerge.ApplyMergePatch | src/base/cJSON_Utils.c:348-365 | the loop over the patch, on all trees |
| JsonMerge.GeneratedAbsent | src/base/cJSON_Utils.c:367-397 | the generated patch is absent exactly when both trees are objects that are equal up to member order and case of names and have the same names, case included |
| JsonMerge.GenerateThenMerge | src/base/cJSON_Utils.c:367-397 | for all pairs of trees with distinct sibling names, merging the generated patch into a copy of the source gives the target, up to member order and case of names, exactly when `TakesTo` holds: along the walk by strcmp an added member is not still to come in the source in another case and has no null in it, and a shared member is unchanged, or not null and itself such a pair |
| JsonMerge.AlignedTakes | src/base/cJSON_Utils.c:367-397 | wherever the walk by strcmp goes as the sorting by strcasecmp (`Aligned`), that is exactly when any merge patch can express the change (`Patchable`) |
| JsonMerge.LowerAligned | src/base/cJSON_Utils.c:367-397 | the walk goes as the sorting for all trees without upper-case letters in the names of their objects |
| JsonMerge.UpperCaseIsLost | src/base/cJSON_Utils.c:375-390 | with an upper-case letter it need not: the patch from {"a": 1, "B": 2} to {"B": 2} removes both members |
| JsonMerge.CaseChange | src/base/cJSON_Utils.c:375-390 | a name that changes in case only arrives exactly when strcmp puts the old name first; otherwise the patch removes the member |
| JsonMerge.NoNullsPatchable | src/base/cJSON_Utils.c:367-397 | the condition holds for every target without null members |
| JsonMerge.NullIsLost | src/base/cJSON_Utils.c:367-397 | a null member that the source does not have is lost |
| JsonMerge.FreshExactly | src/base/cJSON_Utils.c:348-365 | merged into nothing an object keeps its meaning exactly when it has no null members |
| JsonMerge.MakeMergePatch | src/base/cJSON_Utils.c:367-397 | the loop over both sorted lists, on all trees |
| RedisDict.MoveEntry | third/redis_client/dict.c:162-177 | moving one entry to the front of its new bucket keeps every key findable in exactly one of the two tables |
| RedisDict.Dict.Expand | third/redis_client/dict.c:139-184 | expanding keeps the contents, places every entry in the bucket of its hash in the larger table, and fails exactly when the new size is below the number of entries |
| RedisDict.Dict.Rehash | third/redis_client/dict.c:157-179 | all entries are moved, also when the loop stops early: the assert that none is left holds |
| RedisDict.NextPower | third/redis_client/dict.c:377-387 | `_dictNextPower` gives the least power of two from 4 on, except for sizes from LONG_MAX on, which it does not round |
| RedisDict.PowersApart | third/redis_client/dict.c:377-387 | so a size that is a power of two is taken as it is |
| RedisDict.Dict.Add | third/redis_client/dict.c:186-205 | `dictAdd` adds the pair exactly when the key is not there, and doubles a full table first |
| RedisDict.Dict.Replace | third/redis_client/dict.c:211-230 | `dictReplace` maps the key to the value, and tells whether the key is new |
| RedisDict.Dict.Delete | third/redis_client/dict.c:233-261 | `dictDelete` removes the key, and touches no bucket but its own |
| RedisDict.Dict.FindEntry | third/redis_client/dict.c:298-311 | `dictFind` finds what the map has |
| RedisDict.EntriesExactly | third/redis_client/dict.c:323-341 | the entries of the buckets in order are the pairs of the map, every key once |
| RedisDict.DictIterator.Next | third/redis_client/dict.c:323-341 | `dictNext` returns the entries still to come one by one |
| RedisDict.IterateAll | third/redis_client/dict.c:313-341 | an iteration whose caller deletes any of the entries it is given visits every entry exactly once; at the end exactly the chosen keys are gone and every other key has its value |
| RedisDict.RunAll | third/redis_client/dict.c:186-311 | a new dictionary answers every sequence of operations as a finite map would |
| TcpFramer.StepKeeps | src/core/TcpServer.cpp:122-212 | a step over a stream of frames hands on the next frame or none, and loses no byte |
| TcpFramer.ParseKeeps | src/core/TcpServer.cpp:119-221 | after a call fewer than HEAD_LEN bytes are left unlooked at, frames handed on followed by the partial packet and the buffer are the bytes received, and at most one complete frame is held back |
| TcpFramer.HeldBack | src/core/TcpServer.cpp:180-212 | a frame is held back exactly when its missing bytes are in the buffer but are fewer than a header |
| TcpFramer.FrontFrames | src/core/TcpServer.cpp:119-221 | frames handed on are the first frames of the stream |
| TcpFramer.Connection.ParseBuffer | src/core/TcpServer.cpp:119-221 | the loop over the buffer, with its copies and the final move, is the step function run to its end |
| TcpFramer.ReceiveAll | src/core/TcpServer.cpp:92-221 | a stream of frames received in any pieces is taken apart into its frames in order |
| TcpFramer.LostExactly | src/core/TcpServer.cpp:119-221 | frames behind garbage are parsed, handed on or held as without it, exactly unless what has arrived of them is one byte longer than the garbage; then all of it is thrown away |
| TcpFramer.FrameLost | src/core/TcpServer.cpp:165-178 | a complete 27-byte frame behind 26 bytes of garbage is lost, behind any other number of them it is handed on |

## Left out

Queue:

* Weak memory orders, fences, allocation, alignment and exceptions: atomics are sequentially consistent
  steps, memory is fresh objects, element copies do not throw.
* Bulk enqueue and its rollback, queue move and swap, destructors, statistics and debug code.
* The counter form of the block's empty flags, used for blocks above the flag threshold: the model has
  the flag form.
* Recycling of producers when threads exit: the hash tables never lose a key here.
- BlockQueue.StepKeepsInv: takes an allocation to fail when the blocks would not fit in memory, at two bytes an element (the element and its flag).

Redis client:

* Lengths that overflow the source's arithmetic have undefined behaviour there; the model reports them as
  an error of their own (`BadNumber`). Buffers stay below 2^31 bytes.
* The capacity management of sds strings, custom reply object functions, freeing of replies, and sockets.
- RedisFormat.ScanFormat: other printf directives than %s, %b and %% are not modelled, because they are formatted by vsnprintf.
- RedisFormat.FormatCommand: the same.
* The linked entries of `dict.c` are chain values in the bucket array, so the aliasing of an entry that
  the caller holds is not captured; key and value destructors, `_dictClear` and `dictRelease` are not
  modelled.
- RedisDict.Dict.Expand: sizes from LONG_MAX on are not rounded to a power of two, which the masks of the tables presuppose.
- RedisDict.Dict.Add: tables have at most 2^30 buckets when an entry is added, since the source keeps the bucket in an `int`.
- RedisDict.Dict.Replace: the same.
- RedisDict.RunAll: the same, as a bound on the number of operations.

HTTP:

* `http_parser_parse_url`, `http_parse_host`, `http_parser_pause`, and the non-strict build.
* Callbacks that fail, pause the parser or change its fields. `on_headers_complete` may answer 0, 1 or 2,
  the same for all messages of a parser.
* The header state that the loop over a value keeps in a local variable until it leaves is written to
  the field at once: nobody can see the difference while callbacks leave the parser alone.
* A value that is continued on the next line (deprecated by section 3.2.4 of RFC 7230) is in the automaton and in
  everything about runs, but not in the lemmas about header lines. Nor is a response without a length, which lasts
  until the connection closes, in `HttpFraming`; `HttpMessages.EofBody` has its body.
- HttpParser.Parser.ReadValue: agrees with the automaton under the two conditions of `Execute`.
- HttpParser.Parser.Execute: says nothing when a value contains a byte that is no header character, because the search for the end of a plain value does not look at all bytes, nor when a header has more than 40960 bytes: the limit counts bytes of names and values twice when they arrive one at a time, so the model compares cuttings up to half the limit, where none is refused.
- HttpRuns.ExecuteAll: has the two conditions of `Execute`.

JSON:

* Floating-point numbers: numbers are 32-bit integers, strings have no NUL, and truth values are compared
  by type.
- JsonMerge.SortMeaning: where names of siblings are equal ignoring case, sorting can change which of them comes first, and so which one a look-up finds; RFC 8259 leaves repeated names open.
- JsonMerge.CompareDecides: speaks of trees with distinct sibling names for the same reason.
- JsonMerge.MergeRefines: the same for the target; detaching a member uncovers a later one of the same name.
- JsonMerge.FreshExactly: the same.
- JsonMerge.GenerateThenMerge: the same.
- JsonParse.ReadNumber: a text with a fraction or an exponent comes out as `Unmodelled`.
* Failing allocations, `cJSON_Delete`, references and hooks.
* Sizes beyond 2^30 in `ensure`, where the source's `int` arithmetic overflows.
* Child lists are list values: relinking them in place is not captured, nor that `SortList` leaves the
  new head's `prev` as it was. Patches are applied to a fresh duplicate.
* `cJSONUtils_GeneratePatches` and `cJSONUtils_ApplyPatches`: array removals are emitted with ascending
  indices, so these two do not undo each other.
* Positions in arrays are C integers in pointers; an index beyond them is not modelled.

TCP framer:

* The checks and handlers a frame is passed to, failing allocations, sockets and the event loop. A frame
  counts as handed on when it is taken from the stream.

Not modelled at all: network and node management, timers, threads, logging, configuration, protobuf
accessors. They would add easier members only.
