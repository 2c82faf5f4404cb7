# orb-weaver: a Dafny model of its core

orb-weaver is a C reverse proxy built around an event multiplexer and a pool of worker threads. This
project models the parts that carry its logic and proves what they promise.

| file | models |
|---|---|
| `HashTools.dfy`, `HashRuns.dfy` | the open-address hash table: its probe loops over a slot array, and what whole runs of add, remove and fetch amount to |
| `TaskQueue.dfy` | the linked task queue on the heap, with `queue_tail` as a pointer to a pointer cell |
| `Dispatch.dfy`, `DispatchSafety.dfy`, `DispatchWakeups.dfy`, `DispatchProgress.dfy`, `DispatchClosing.dfy` | the producer, any number of workers, two locks, one condition variable and the kernel's descriptor table and kqueue, as one interleaved step system; what it keeps, when it loses a wake-up, who can move, and which connections can still be closed |
| `RequestReader.dfy` | the chunked reader of request heads |
| `HttpGrammar.dfy`, `HttpHandler.dfy`, `RequestRoundTrip.dfy` | the request-line, header and head parsers; printing against parsing |
| `RequestProcessing.dfy` | reader and parser together, with the branch between them |
| `StringTools.dfy`, `ConfigurationHandler.dfy` | the decimal printer and the configuration file parser |
| `Wrappers.dfy`, `CStrings.dfy`, `HttpText.dfy` | an option type, NUL-terminated strings, the end-of-head marker |

`dafny verify dfyconfig.toml` checks everything.

## How to read it

The source changes tables, queues, buffers and structs step by step, so each of its routines is a method
(most of them on a class or an array) proved against a function on values; the lemmas then say what that
function means over whole runs and across routines. A long C routine is split where its own comments
split it, and the pieces keep the order of its tests.

**Hash table.** A key is the `key_size` bytes the caller passes, followed by a NUL; `strcmp` compares what
lies before the first NUL (`Name`), while hashing uses all the bytes. The bag theorems therefore hold for
keys with embedded NULs too. Only the statements about runs without removal ask for `key_size == strlen(key)`.
`char` is signed, as on macOS, the platform the code's kqueue and sysctl names belong to, so the cast in the
hash loop sign-extends. The outcome of `calloc` is an argument.

**Task queue.** When a pull takes the queue from two tasks to one, `queue_tail` goes on pointing at the `next`
cell of the node that was unlinked, and thread_handler.c:158 frees that node. The contracts are about the list
logic with unlinked nodes retained; `PullNextTask` states exactly when the cell's owner is such a node.

**Dispatch.** One step is one access to shared state: the counter's `++` and `--` are a load and a store each,
and a worker's test and its wait are separate steps. Linking or unlinking a node is one step, because every
access to the list happens between lock and unlock of `enqueue_lock` (`MutualExclusion`). The kqueue may
deliver any armed registration and disarms it on delivery, as EV_DISPATCH promises; `accept` may return any
descriptor number that is not open, so numbers are reused freely; wake-ups may be spurious. `Task.conn`
records which accept a descriptor came from; no step depends on it. The stop of a failed start or a failed
poll is a step too. A connection is given up (`abandoned`) when its registration or its queue node fails: the
code returns without closing it. `ClosableUnlessStranded` shows that this, the lack of workers, and a stopped
producer are the only ways to leave a connection open for good.

**Reader and parser.** The socket is the sequence of results its coming `recv` calls return. Two
undefined reads are given the evident meaning: the scratch buffer of the request line starts zeroed
(http_handler.c:61), a word that fills it ends where it ends, and the row of the method table without a name
ends the search (http_handler.h:34). A word fills the scratch only on a line without a space (`ScratchIsFull`),
and such a line is rejected whatever the word is taken for (`OneWordIsRejected`). What the parser demands of its input is `Supported`: at most 100 headers, and
in every header line that is reached the first colon is followed by a space. The parser's demand for a
complete head is exactly what the reader ensures, which is how `ProcessRequest` can call one after the other.
When the bytes read hold "Content-Length:", `_process_request` calls the body reader before it parses; the
model ends there, with the outcome `NeedsBody`.

**Configuration.** A line is what one `fgets` delivers, 199 bytes at most. `ReadableFile` leaves out two kinds
of line, up to the first rejected one: a known field name without a space, newline or carriage return after
it, which sends the parser past the terminator into what earlier lines left in the buffer, and a value whose
first 20 bytes are all digits, which fills its cache and leaves no terminator for the conversion loop. The
check for characters above 127 (configuration_handler.c:77) cannot fire with signed characters and is not
modelled.

## Where code and documentation differ

- The comment above `_get_http_metadata` says the final CRLFCRLF has been stripped already; the code needs it
  to be there, and the model follows the code.
- `value_size` of a header is one more than the value's length, since the loop copies the terminator as well.
- A request line may go on after a third space; whatever follows is ignored.
- The limits on lines (8192 bytes) and headers (100) admit requests that the limit on the whole, their product,
  refuses, since it counts the line ends as well (`WithinLimitsYetRefused`).

## Model

| member | source | states |
|---|---|---|
| HashTools.GenerateHashIndex | src/orb-weaver/utilities/hash-tools/hash_tools.c:288-317 | the loop that wraps at every multiplication and addition computes the unbounded polynomial of the sign-extended bytes mod 2^64 mod n, with slot 1 in place of slot 0; None exactly for the arguments the code refuses |
| HashTools.PolynomialSnoc | src/orb-weaver/utilities/hash-tools/hash_tools.c:306-309 | that polynomial is the one in base 31: a byte appended multiplies by 31 and adds the byte |
| CStrings.SameString | src/orb-weaver/utilities/hash-tools/hash_tools.c:139-139 | two buffers are the same string exactly if they agree up to a position where both end and before which neither does; this is what "name" means in the table and in the parsers |
| HashTools.HashConcat | src/orb-weaver/utilities/hash-tools/hash_tools.c:306-309 | hash(xs ++ ys) = hash(xs) * 31^len(ys) + hash(ys) mod 2^64 |
| HashTools.Distance | src/orb-weaver/utilities/hash-tools/hash_tools.c:270-275 | from any home, every usable slot is reached by exactly one number of moves below n-1: one cycle visits each slot once, slot 0 never |
| HashTools.HashTable.SeekEntry | src/orb-weaver/utilities/hash-tools/hash_tools.c:260-286 | the seek stops at the first slot holding the name in order home+1, .., home, and reports absence only after the whole cycle, for every size and home |
| HashTools.HashTable.Locate | src/orb-weaver/utilities/hash-tools/hash_tools.c:137-149 | home slot first and seek after it select the first slot of the cycle that holds the name |
| HashTools.HashTable.Add | src/orb-weaver/utilities/hash-tools/hash_tools.c:18-105 | refused arguments change nothing and set no index; with every usable slot taken the index is the home slot and nothing changes; otherwise the index is the first free slot of the cycle from home, and exactly that slot takes the entry if the allocation succeeds |
| HashTools.HashTable.Remove | src/orb-weaver/utilities/hash-tools/hash_tools.c:107-155 | succeeds exactly if an entry has the name; then exactly the first slot of the cycle from home that holds it is emptied, otherwise nothing changes |
| HashTools.HashTable.Fetch | src/orb-weaver/utilities/hash-tools/hash_tools.c:157-214 | None exactly if no entry has the name, otherwise the value in the first slot of the cycle from home that holds it |
| HashTools.HashAllocate | src/orb-weaver/utilities/hash-tools/hash_tools.c:238-257 | succeeds exactly for at least two entries and a pointer not allocated yet, with twice as many slots, all empty; otherwise the pointer stays as it is |
| HashRuns.StepRefinesBag | src/orb-weaver/utilities/hash-tools/hash_tools.c:18-214 | every call acts on the bag of (name, value) pairs: add inserts one pair and fails for lack of room only at n-1 pairs, remove deletes exactly one pair of the name, fetch returns a value of the name iff there is one |
| HashRuns.TableIsABag | src/orb-weaver/utilities/hash-tools/hash_tools.c:18-257 | any run from a fresh table of capacity c is a run of the empty bag with room for 2c-1 pairs |
| HashRuns.AddsFit | src/orb-weaver/utilities/hash-tools/hash_tools.c:249-250 | as long as the pairs held and the adds still to come fit the usable slots, no well-formed add in the run is refused |
| HashRuns.FirstAddsFit | src/orb-weaver/utilities/hash-tools/hash_tools.c:249-250 | in a fresh table of capacity c the first 2c-1 adds, hence the first c, always find room |
| HashRuns.TableIsAMap | src/orb-weaver/utilities/hash-tools/hash_tools.c:18-257 | if no present key is added again, every reply of the run is that of a dictionary |
| HashRuns.RemoveTakesWhatFetchReturns | src/orb-weaver/utilities/hash-tools/hash_tools.c:138-152 | remove deletes exactly the pair whose value an immediately preceding fetch returns |
| HashRuns.RemoveKeepsOthers | src/orb-weaver/utilities/hash-tools/hash_tools.c:151-152 | removing one key never changes what fetch returns for another, although no tombstone is left |
| HashRuns.RemovesDrain | src/orb-weaver/utilities/hash-tools/hash_tools.c:107-155 | with k copies of a key present, exactly the first k of any number of removes succeed |
| HashRuns.FirstWins | src/orb-weaver/utilities/hash-tools/hash_tools.c:62-79 | runs without removal keep every path from home to entry free of holes, and an add never hides an earlier value of its key |
| HashRuns.TableIsFirstWins | src/orb-weaver/utilities/hash-tools/hash_tools.c:194-204 | without removal, fetch returns the earliest value successfully added, and a search that stops at the first empty slot would agree with the full scan |
| HashRuns.EarlyStopNeedsNoRemoval | src/orb-weaver/utilities/hash-tools/hash_tools.c:271-282 | after a removal the early stop misses an entry that the full scan finds: the concrete run |
| TaskQueue.Queue.constructor | src/orb-weaver/services/orchestration/thread-handler/thread_handler.c:282-292 | the queue starts empty, its tail pointing at the head variable |
| TaskQueue.Queue.Enqueue | src/orb-weaver/services/orchestration/thread-handler/thread_handler.c:93-110 | appends exactly the descriptor, truncated to int, behind the node read through the tail cell, and keeps chain, mirror links, tail and counter right; a failed allocation changes nothing |
| TaskQueue.Queue.PullNextTask | src/orb-weaver/services/orchestration/thread-handler/thread_handler.c:136-164 | takes the oldest task off, negative descriptors included; reading through the tail cell still yields the last node, and the cell's owner is the unlinked node exactly when two tasks became one |
| DispatchSafety.StepKeepsInvariant | src/orb-weaver/services/orchestration/thread-handler/thread_handler.c:42-165 | every producer and worker step keeps locks, counter, ownership, registrations, accept numbers and queue order consistent |
| DispatchSafety.RunKeepsInvariant | src/orb-weaver/services/orchestration/orchestrator/orchestrator.c:35-107 | so does every run, for any number of workers and any interleaving |
| DispatchSafety.TaskIsAlwaysFound | src/orb-weaver/services/orchestration/thread-handler/thread_handler.c:52-68 | a worker that has seen a non-zero counter finds a task: the "no task found" branch is unreachable, and queue_head is never read before it exists although workers are created first |
| DispatchSafety.CounterTracksQueue | src/orb-weaver/services/orchestration/thread-handler/thread_handler.c:89-161 | num_connections equals the queue length whenever enqueue_lock is free, and exceeds it only inside a pop |
| DispatchSafety.MutualExclusion | src/orb-weaver/services/orchestration/thread-handler/thread_handler.c:50-161 | at most one thread is inside each critical section |
| DispatchSafety.FirstInFirstOut | src/orb-weaver/services/orchestration/thread-handler/thread_handler.c:89-165 | what was enqueued is what was dequeued followed by what is queued, and no connection is ever queued twice |
| DispatchSafety.AcceptedIsOwnedOnce | src/orb-weaver/services/orchestration/orchestrator/orchestrator.c:143-208 | every accepted connection is closed, once, and held nowhere, or open and in exactly one of: armed, in the batch, at the producer, queued, at one worker, abandoned |
| DispatchClosing.ClosableUnlessStranded | src/orb-weaver/services/orchestration/thread-handler/thread_handler.c:42-165 | in every reachable state, for pools of any size: some continuation closes an open connection if and only if there is a worker, the connection was not given up after an error, and the producer has not stopped while it waited for the connection's data |
| DispatchClosing.QueueCloses | src/orb-weaver/services/orchestration/thread-handler/thread_handler.c:50-80 | a queued connection can be closed by steps of workers alone, and of the producer only to leave its critical section, whatever stands before it in the queue: every lock is given up and every pull makes progress |
| DispatchClosing.ProducerCloses | src/orb-weaver/services/orchestration/orchestrator/orchestrator.c:95-208 | unless the producer has stopped, a connection that is armed, in the batch or in the producer's hand can be queued and closed |
| DispatchClosing.ServedIsReachable | src/orb-weaver/services/orchestration/thread-handler/thread_handler.c:42-165 | a run of one worker from the start through accept, registration, delivery, queueing, pull and close, after which nothing is left of the connection but the history |
| DispatchProgress.WorkerMovesUnlessLocked | src/orb-weaver/services/orchestration/thread-handler/thread_handler.c:50-161 | a created worker can move unless it waits for thread_lock, or for enqueue_lock while the producer has it; so the holder of either lock is never stuck behind another worker |
| DispatchProgress.ProducerMovesUnlessLocked | src/orb-weaver/services/orchestration/thread-handler/thread_handler.c:89-117 | the producer can move unless it waits for enqueue_lock or has failed, and always while it has that lock |
| DispatchProgress.DeliveredOnce | src/orb-weaver/services/orchestration/orchestrator/orchestrator.c:160-160 | EV_DISPATCH: a delivery adds exactly its event and disarms exactly its registration, which stays disarmed and open while the event waits; no connection is in a batch twice; a batch holds at most 256 events and the listening socket once |
| DispatchProgress.OneEventAtATime | src/orb-weaver/services/orchestration/orchestrator/orchestrator.c:95-107 | the producer handles the first event of the batch and removes exactly that one; a data event's descriptor and end-of-input flag stay with it until the event is finished or given up |
| DispatchProgress.EnvironmentIsFree | src/orb-weaver/services/orchestration/orchestrator/orchestrator.c:76-164 | what kevent, accept, calloc and the condition variable may do: any armed registration with either flag, any free descriptor number, success or failure, any waiting worker |
| DispatchProgress.FailuresStop | src/orb-weaver/services/orchestration/orchestrator/orchestrator.c:83-87 | exactly a failed start and a failed poll end the producer, for the rest of every run |
| DispatchSafety.CloseHitsOwnConnection | src/orb-weaver/services/orchestration/thread-handler/thread_handler.c:70-80 | a worker's close hits the connection it was given, never a newer one that reuses the number, and takes exactly that descriptor and its registration away |
| DispatchSafety.DeleteSparesNewerConnections | src/orb-weaver/services/orchestration/orchestrator/orchestrator.c:190-197 | in every reachable state, EV_DELETE at end of input removes exactly the registration of the connection it is meant for, so that no registration has its descriptor any more, and never an armed or newer one; without end of input all registrations stay |
| DispatchWakeups.WakeUpIsLostOnlyInSmallPools | src/orb-weaver/services/orchestration/thread-handler/thread_handler.c:50-117 | a task can lie queued with no signal due and no worker awake exactly when the pool has at most one worker |
| DispatchWakeups.TwoWorkersForgetNothing | src/orb-weaver/services/orchestration/thread-handler/thread_handler.c:50-117 | with two workers or more, in every reachable state a queued task has a signal coming or a worker that is neither waiting nor about to wait |
| DispatchWakeups.SmallPoolForgets | src/orb-weaver/services/orchestration/thread-handler/thread_handler.c:112-114 | the failing run: a signal sent between the only worker's test and its wait is lost, and the task stays with nothing left to deliver; with no worker there is nobody to wake |
| DispatchWakeups.QuietIsReachable | src/orb-weaver/services/orchestration/thread-handler/thread_handler.c:250-292 | for every pool size the process comes up: all workers created, then the sentinel, then polling |
| RequestReader.Socket.Receive | src/orb-weaver/services/tcp/connection-handler/connection_handler.c:170-191 | one recv: the next error or chunk, nothing once the peer has closed |
| RequestReader.GetRequestHeaders | src/orb-weaver/services/orchestration/thread-handler/thread_handler.c:297-330 | terminates, succeeds exactly when the reference reader does, with its bytes in the buffer prefix, at most 8192, and nothing else changed |
| RequestReader.ReadsUpToTheTerminator | src/orb-weaver/services/orchestration/thread-handler/thread_handler.c:301-325 | success with a head iff the head is the concatenation of the first k chunks, all data, k least such that CRLFCRLF is complete, within 8192 bytes |
| RequestReader.ChunkingDoesNotMatter | src/orb-weaver/services/orchestration/thread-handler/thread_handler.c:301-325 | two successful reads of one byte stream, cut up in any two ways, agree up to the stream's first terminator |
| RequestReader.ShortStreamsAreRead | src/orb-weaver/services/orchestration/thread-handler/thread_handler.c:301-325 | a peer that sends only data, 8192 bytes at most in all, is read successfully iff it sends a terminator, however it cuts it |
| HttpGrammar.RequestLineGrammar | src/orb-weaver/services/http/http-handler/http_handler.c:61-183 | accepted are exactly: method SP route SP protocol, then the end or a space and anything, the method one of GET, POST, PUT, DELETE, the route starting with a slash, the protocol HTTP/1.0, HTTP/1.1 or HTTP; and the fields are what the words say |
| HttpGrammar.RejectedLineSets | src/orb-weaver/services/http/http-handler/http_handler.c:79-151 | what a rejected line leaves in the struct: the fields of the words accepted before the one that fails, and a reset method or route for a failing first or second word |
| HttpGrammar.HeaderGrammar | src/orb-weaver/services/http/http-handler/http_handler.c:187-286 | a line with an end of key is accepted exactly if it is key, colon, space and value, no colon or carriage return in the key and every carriage return of the value followed by a newline; the value's size counts one more than its length |
| HttpGrammar.HostGrammar | src/orb-weaver/services/http/http-handler/http_handler.c:219-224 | the host flag is up exactly for lines that begin with "Host:" |
| HttpGrammar.BlockEnds | src/orb-weaver/services/http/http-handler/http_handler.c:377-380 | the lines that are parsed reach exactly to the middle of the first CRLFCRLF |
| HttpHandler.FindMethod | src/orb-weaver/services/http/http-handler/http_handler.c:86-93 | the table search yields Get, Post, Put, Delete for exactly "GET", "POST", "PUT", "DELETE", and none otherwise |
| HttpHandler.FindProtocol | src/orb-weaver/services/http/http-handler/http_handler.c:127-133 | the table search yields 1.0 and 1.1 for exactly "HTTP/1.0" and "HTTP/1.1", and none for other non-empty words |
| HttpHandler.EndWord | src/orb-weaver/services/http/http-handler/http_handler.c:79-151 | what the end of each word sets in the struct, on success and on every failure |
| HttpHandler.ValidateHttpMetadata | src/orb-weaver/services/http/http-handler/http_handler.c:55-184 | the loop over a scratch buffer as long as the line accepts and sets exactly what the word-by-word reference does; every read of the line and every write to the scratch stays inside |
| HttpHandler.ScratchIsFull | src/orb-weaver/services/http/http-handler/http_handler.c:61-88 | a word leaves the scratch without a terminator exactly when it is the first and the line has no space |
| HttpHandler.OneWordIsRejected | src/orb-weaver/services/http/http-handler/http_handler.c:79-99 | such a line is rejected, whatever word its scratch is taken for |
| HttpHandler.ValidateHttpHeader | src/orb-weaver/services/http/http-handler/http_handler.c:187-286 | key before the first colon, value after colon and space, sizes, host flag, and each rejection; both caches stay in bounds |
| HttpHandler.CopyLine | src/orb-weaver/services/http/http-handler/http_handler.c:321-343 | the copy is complete iff the line holds no NUL |
| HttpHandler.EndLine | src/orb-weaver/services/http/http-handler/http_handler.c:320-392 | a complete line is taken off, parsed into struct or header table, and the rest of the head is still to come |
| HttpHandler.AtReturn | src/orb-weaver/services/http/http-handler/http_handler.c:345-380 | at a carriage return not past the first terminator all look-aheads lie inside the received bytes, the stop test fires exactly at the terminator, and skipping two bytes never passes it |
| HttpHandler.ParseLines | src/orb-weaver/services/http/http-handler/http_handler.c:308-395 | the cursor loop ends although its condition never does, reads nothing behind the terminator, and computes the line-by-line reference |
| HttpHandler.GetHttpMetadata | src/orb-weaver/services/http/http-handler/http_handler.c:290-409 | refuses by the size guard, else succeeds iff all lines are accepted and a host was seen; the struct holds exactly the parsed fields and host, and on success the headers in order |
| RequestRoundTrip.HeadGrammar | src/orb-weaver/services/http/http-handler/http_handler.c:290-395 | the blocks of lines that are accepted are exactly a clean accepted request line followed by the print of some headers, and what is stored is exactly those headers and the last host among them |
| RequestRoundTrip.ParseGrammar | src/orb-weaver/services/http/http-handler/http_handler.c:290-409 | the whole parser accepts its input, with a given result, exactly if the input is between 1 and 819200 bytes, its lines up to the first terminator are a clean accepted request line and the print of some headers, a header "Host" is among them, and the result is what they say |
| RequestRoundTrip.RefusedParse | src/orb-weaver/services/http/http-handler/http_handler.c:294-402 | a refusal never leaves headers in the struct, and by the size guard leaves it untouched; otherwise fields and host stay as the lines set them |
| RequestRoundTrip.BrokenHeadKeepsPrefix | src/orb-weaver/services/http/http-handler/http_handler.c:308-392 | a head that breaks off leaves exactly what its request line and the headers before the first line that cannot be taken off say |
| RequestRoundTrip.CleanLineGrammar | src/orb-weaver/services/http/http-handler/http_handler.c:321-355 | a line can be taken off exactly if it is ended by CRLF, shorter than 8192 bytes, and free of carriage returns and NULs |
| RequestRoundTrip.PrintedText | src/orb-weaver/services/http/http-handler/http_handler.c:61-183 | what printing a request means in literal words: method, route, protocol, CRLF, the headers, CRLF |
| RequestRoundTrip.PrintedHeaders | src/orb-weaver/services/http/http-handler/http_handler.c:187-286 | one header line is the key, ": ", the value and CRLF, and is stored with the key's length and the value's length plus one |
| RequestRoundTrip.LastHostIs | src/orb-weaver/services/http/http-handler/http_handler.c:370-372 | of several hosts the last one counts |
| RequestRoundTrip.HostIsSet | src/orb-weaver/services/http/http-handler/http_handler.c:370-400 | the reported host is set iff some header is a host header |
| RequestRoundTrip.PrintedEnds | src/orb-weaver/services/http/http-handler/http_handler.c:377-380 | the first terminator of a printed request, whatever follows it, is its own |
| RequestRoundTrip.PrintParseRoundTrip | src/orb-weaver/services/http/http-handler/http_handler.c:55-409 | printing any request within the grammar, the line limit and the header limit and parsing it, whatever follows, gives back method, route, version, headers in order and the last host if the whole passes the size guard of line 295, and is refused with nothing set otherwise |
| RequestRoundTrip.WithinLimitsYetRefused | src/orb-weaver/services/http/http-handler/http_handler.c:294-298 | the refused case exists: 100 host headers of full length |
| RequestProcessing.ProcessRequest | src/orb-weaver/services/orchestration/thread-handler/thread_handler.c:172-211 | refused when the read fails, left to the body reader when the bytes read hold "Content-Length:", otherwise parsed in bounds to the reference result: what the reader ensures is what the parser requires |
| RequestProcessing.CompleteMeans | src/orb-weaver/services/orchestration/thread-handler/thread_handler.c:181-211 | Complete with a head if and only if the chunks up to the one that completes the terminator hold no "Content-Length:" before their first NUL, pass the size guard, and consist of an accepted request line and headers, "Host" among them, that say this head |
| RequestProcessing.NeedsBodyMeans | src/orb-weaver/services/orchestration/thread-handler/thread_handler.c:186-193 | NeedsBody if and only if those chunks hold "Content-Length:" before their first NUL |
| RequestProcessing.RefusedMeans | src/orb-weaver/services/orchestration/thread-handler/thread_handler.c:181-211 | Refused if and only if there are no such chunks, or they announce no body and no head is accepted in them |
| RequestProcessing.MentionsIsAnnounces | src/orb-weaver/services/orchestration/thread-handler/thread_handler.c:186-188 | the search finds the word exactly if the bytes read hold it in full with no NUL before it |
| RequestProcessing.ReadParseRoundTrip | src/orb-weaver/services/orchestration/thread-handler/thread_handler.c:297-330 | for every cutting of a printed request's bytes on which reading succeeds, what is read parses to the request; the branch between reading and parsing is not part of this statement |
| RequestProcessing.SentRequestIsParsed | src/orb-weaver/services/orchestration/thread-handler/thread_handler.c:172-211 | a printed request sent in any chunks of data, with anything behind it, within 8192 bytes and without "Content-Length:", comes out of processing as the request it was |
| StringTools.SizeTToString | src/orb-weaver/utilities/string-tools/string_tools.c:37-59 | writes the decimal numeral and a NUL and nothing else; the underflow guard never fires |
| StringTools.ValueOfDecimal | src/orb-weaver/utilities/string-tools/string_tools.c:37-59 | reading the numeral gives the number back |
| StringTools.DecimalIsUnique | src/orb-weaver/utilities/string-tools/string_tools.c:37-59 | it is the only numeral of the number without a leading zero |
| StringTools.ValueSnoc | src/orb-weaver/configuration/parsers/configuration-handler/configuration_handler.c:129-141 | the number a numeral denotes: a digit, code 48 to 57, appended multiplies by ten and adds code minus 48 |
| ConfigurationHandler.ValidateFieldName | src/orb-weaver/configuration/parsers/configuration-handler/configuration_handler.c:25-35 | finds the row of the name, whose offset is that of the named field for reads and writes, or none |
| ConfigurationHandler.FindEnumRow | src/orb-weaver/configuration/parsers/configuration-handler/configuration_handler.c:37-47 | finds the row of the enum value, whose offset is that of its field, or none |
| ConfigurationHandler.Handler.constructor | src/orb-weaver/configuration/parsers/configuration-handler/configuration_handler.c:18-23 | the process starts with 4096 connections, port 8888, 8 cores and 256 routes |
| ConfigurationHandler.Handler.ReadName | src/orb-weaver/configuration/parsers/configuration-handler/configuration_handler.c:66-85 | the name is what precedes the first space, newline or return of the whole buffer, stale bytes included |
| ConfigurationHandler.BufferName | src/orb-weaver/configuration/parsers/configuration-handler/configuration_handler.c:71-95 | what lies in the buffer behind the line matters to the name only as bytes after a NUL, which the table lookup does not see |
| ConfigurationHandler.Handler.CopyValue | src/orb-weaver/configuration/parsers/configuration-handler/configuration_handler.c:117-125 | the value text up to newline or NUL is copied, 20 bytes of it at most |
| ConfigurationHandler.Handler.Convert | src/orb-weaver/configuration/parsers/configuration-handler/configuration_handler.c:129-141 | digits are converted without 64-bit wrap, anything else is refused |
| ConfigurationHandler.Handler.ParseLine | src/orb-weaver/configuration/parsers/configuration-handler/configuration_handler.c:66-149 | one line is ignored, rejected, or sets exactly its one field |
| ConfigurationHandler.LineGrammar | src/orb-weaver/configuration/parsers/configuration-handler/configuration_handler.c:70-146 | a readable line assigns v to a field iff it is the field's name, spelled max_connections, port, num_cores or max_num_routes, one space, newline or carriage return, "= ", digits denoting v > 0, and then its end, a newline or a NUL |
| ConfigurationHandler.OtherLines | src/orb-weaver/configuration/parsers/configuration-handler/configuration_handler.c:70-146 | a readable line is skipped exactly if its first or second character is a space, newline or carriage return, and stops the parser exactly if it neither is skipped nor assigns |
| ConfigurationHandler.NextLineGrammar | src/orb-weaver/configuration/parsers/configuration-handler/configuration_handler.c:65-65 | one fgets: the bytes up to and including the first newline, 199 at most, or all that is left |
| ConfigurationHandler.Handler.ParseConfiguration | src/orb-weaver/configuration/parsers/configuration-handler/configuration_handler.c:63-154 | the result is the old configuration overridden in order by the lines accepted before the first rejected one, which persist on failure; true iff none was rejected |
| ConfigurationHandler.LastAssignmentWins | src/orb-weaver/configuration/parsers/configuration-handler/configuration_handler.c:148-148 | each field ends with the value last assigned to it, or keeps its old one |
| ConfigurationHandler.PrintedLineAssigns | src/orb-weaver/configuration/parsers/configuration-handler/configuration_handler.c:65-148 | a printed "name = n" line, 1 <= n < 10^19, is one line and assigns exactly n to that field |
| ConfigurationHandler.PrintParseRoundTrip | src/orb-weaver/configuration/parsers/configuration-handler/configuration_handler.c:63-154 | a file printed from any assignments and any lines to be skipped, followed by nothing or by a rejected line and anything, yields exactly those assignments in order, and is wholly accepted iff no rejected line follows |
| ConfigurationHandler.Handler.FetchByName | src/orb-weaver/configuration/parsers/configuration-handler/configuration_handler.c:191-199 | the struct member of that name for the four names, nothing for any other |
| ConfigurationHandler.Handler.FetchByEnum | src/orb-weaver/configuration/parsers/configuration-handler/configuration_handler.c:201-209 | the struct member of that enum value, nothing for CONFIG_NULL |

## Left out

- Liveness under fair scheduling: what is proved is that a run which closes a connection remains possible (`ClosableUnlessStranded`, spurious wake-ups included), and when a queued task can be left with nobody awake, which is exactly for pools of at most one worker (`WakeUpIsLostOnlyInSmallPools`).
- Weak memory: the unlocked read of `num_connections` is a data race in C; the step system is sequentially consistent.
- Lifetime of queue nodes: unlinked nodes are retained, see above.
- The width of `num_connections`: an unbounded integer here, so 2^31 queued tasks are not modelled.
- Null-pointer arguments, `hash_free`, and writes through the pointer that `hash_fetch_entry` hands out.
- HttpHandler.ValidateHttpHeader: a line without any colon or carriage return is excluded, because the code then writes one byte past its key cache.
- HttpHandler.EndLine: malformed header lines inside a head are excluded, because the code goes on using the header it has freed; `ValidateHttpHeader` covers their rejection.
- HttpHandler.ParseLines: excludes the same lines, and heads of more than 100 headers, which overrun the header table.
- HttpHandler.GetHttpMetadata: excludes the same heads.
- RequestRoundTrip.HeadGrammar: speaks of the heads that remain.
- RequestRoundTrip.ParseGrammar: speaks of the same heads.
- RequestProcessing.CompleteMeans: speaks of reads whose head the parser supports in this sense, as do `NeedsBodyMeans` and `RefusedMeans`.
- ConfigurationHandler.Handler.ParseLine: excludes the two kinds of line described above under Configuration.
- ConfigurationHandler.LineGrammar: speaks of the lines that remain, as does `OtherLines`.
- ConfigurationHandler.Handler.ParseConfiguration: excludes files that reach such a line.
- RequestProcessing.ProcessRequest: the allocation of its buffers succeeds.
- `_get_request_contents`, `_route_http_request`, sending and the response path: unfinished, or advancing the wrong variable.
- `string_length` and `string_to_size_t`: neither computes its result.
- `initialize_configuration` after parsing (the core count comes from the system), opening the file, and logging.
- The router and the routing parser: stubs.
- Freeing of requests, buffers and threads.
