# A verified model of libmc

libmc is a memcached client: a C++ library with a Python (Cython) and a Go layer over it.
This project models its core in Dafny and proves what that core promises.  It follows the
release build (`NDEBUG`), where an expected word of a reply is skipped by its length and
not compared.  `dafny verify dfyconfig.toml` checks all of it.

| file | what it models |
|---|---|
| `Octets.dfy` | bytes, fixed-width numbers, decimal notation |
| `ReplyMachine.dfy` | the reply parser as a state machine over one flat byte sequence |
| `Chunking.dfy`, `Replies.dfy`, `Receiving.dfy`, `Unexpected.dfy` | its theorems: chunking independence, round trip, truncation, attribution, and what it makes of wrong replies |
| `DataBlock.dfy`, `BlockQueue.dfy`, `BufferReader.dfy` | the list of reference-counted blocks, with read cursor and write iterator |
| `ParserTokens.dfy`, `Parser.dfy` | the resumable parser over blocks and zero-copy tokens, proved to be the flat one |
| `Itoa.dfy` | the table-driven number printer |
| `BufferWriter.dfy`, `Connection.dfy` | partial sends, partial receives, rewind and retry |
| `Commands.dfy`, `ConnectionPool.dfy` | commands spread over connections, read back by a server; results put together |
| `Ketama.dfy` | the hash ring and its failover walk |
| `Crc.dfy`, `Md5.dfy`, `Md5Context.dfy`, `Md5Digests.dfy` | table-driven CRC-32 and streaming MD5 against RFC 1952 and RFC 1321, and their published values |
| `LockPool.dfy` | the FIFO worker pool, all interleavings |
| `GoPool.dfy`, `GoPoolRuns.dfy` | the Go connection pool, all interleavings of callers, opener, cleaner and `Quit` |
| `ChunkedStore.dfy` | large values stored as a meta entry and pieces |

Code that changes state step by step is a class whose methods are proved against functions
on values; the theorems are lemmas about those functions, over all inputs, runs or
interleavings.  The list of blocks and its iterators are a sequence and positions in it, the
length standing for `end()`.  Some predicates hold "for all `t: bool`" of a copy of
themselves: that keeps the solver from unfolding them until a lemma opens them.

What the model shows about the code where it does not do what one might expect:

- A value announced as 2^32 - 1 bytes long makes `bytesRemain` wrap around to zero, and its
  header alone is handed out as a complete result (`src/Parser.cpp:153`).  This is the only
  case: `Receiving.TornIffWrapped`, `Receiving.SafelyCutIff`.
- An empty key passes `isValidKey`, and lengths and cas numbers of 2^63 or more are printed
  with a minus sign, because all numbers go through `int64_t`.  `Commands.Framing` says
  exactly when a server reads back what was queued.
- `isRead` looks at the buffer index alone and misses exactly the first sends that stop inside
  the first buffer (`BufferWriters.SendMissedIff`).  The branch of `waitPoll` that relies on
  it reconnects without a rewind (`src/ConnectionPool.cpp:459-470`) and goes on with the rest
  of that buffer (`BufferWriters.WholeIffUnsent`, `BufferWriters.UnnoticedSend`).
- `autoGrow` adds `MIN(..., m_clients.size())` clients.  Called before the pool has clients,
  or with growth limited to zero, it adds none, and `addWorkers(0)` wakes a thread that finds
  no worker.  `LockPools.GrowBreaksIff` and `LockPools.MayBreakIff` say exactly when that can
  happen.  The assertion `by > 0` in `growPool` is not compiled in.
- When a quit fails in the Go pool, no connection is opened in its place: a caller can wait while
  none is open and none is coming.  `GoPoolRuns.ServedIff` says exactly when,
  `GoPoolRuns.StrandedRequest` gives the run.
- With `maxOpen` above 1000000 the Go pool can fill its opener channel while it holds its mutex
  (`GoPoolRuns.MayBlockIff`); everything else about it holds for every `maxOpen` > 0.
- `_set` of a large value counts replies and does not look at them
  (`return_failure=False`).  If a piece was refused, and also after a set reported as
  failed, old and new pieces can be read together: `ChunkedStores.LargeSetMatches` and
  `ChunkedStores.FailedSetMatches` say exactly when not, `ChunkedStores.LargeSetSafe` and
  `ChunkedStores.FailedSetSafe` what can be known before the call, and
  `ChunkedStores.TornValue` gives the run.
- On replies outside the protocol the parser can spin (an unknown second byte after `V` or
  `E`, or fifth byte after `N`; `END`, `OK` or `VERSION` while replies are counted) or read
  past the request keys (messages and numbers while it waits for an end state).  The flat
  parser stops with the results `Livelock` and `KeyOverrun` there
  (`UnexpectedReplies.SpinsIff` and the lemmas after it);
  `Receiving.PrefixIncomplete`, `Replies.RoundTrip` and `Receiving.RunAttributed` show that
  conforming streams and counting mode, respectively, never get there.

## Model

| member | source | states |
|---|---|---|
| `ReplyMachine.ReadUnsigned` | src/BufferReader.cpp:278-330 | A number is read only if it starts with a digit and is followed by a byte that ends it; its value is below 2^64. |
| `ReplyMachine.StepProgress` | src/Parser.cpp:115-257 | Every transition of the thirteen states, on any bytes, keeps the state well formed and uses bytes or lowers the rank of the state: the loop terminates on every stream, also on steps that consume nothing. |
| `ReplyMachine.StepStartProgress` | src/Parser.cpp:261-465 | The same for the transitions of `start_state`. |
| `ReplyMachine.StopIsError` | src/Parser.cpp:115-122 | A transition that leaves the loop does so with an error code. |
| `Chunking.RunSplit` | src/Parser.cpp:91-258 | The loop on `a + b` is the loop on `a`, resumed with `b` if it had run out of bytes, and unaffected by `b` otherwise. |
| `Chunking.ProcessSplit` | src/Parser.cpp:91-258 | The same for whole calls, including the return to the start state from an end state. |
| `Chunking.ChunkingIndependence` | src/Parser.cpp:91-258 | For every stream, every cut into chunks, both modes and every state: the receive loop ends with the error code, the results and the unread remainder of one call on the whole stream. |
| `Chunking.IncompleteNotEnded` | include/Parser.h:65-68 | A call that asks for more bytes never leaves the parser in a state in which it could have ended. |
| `Chunking.RunAgain` | src/Parser.cpp:92-93 | Calling again without new bytes changes nothing. |
| `Replies.ReadUnsignedDecimal` | src/BufferReader.cpp:278-330 | Reading the canonical decimal form of any number, followed by any byte that is not a digit, gives the number modulo 2^64 and uses exactly its digits. |
| `Replies.ValueRecord` | src/Parser.cpp:125-210 | A VALUE record is parsed to the key, flags, data and cas number it was printed from, whatever bytes the data are (line ends and "END" included) and whatever follows. |
| `Replies.NumberReply` | src/Parser.cpp:211-234 | An INCR/DECR reply, padded or not, is parsed to its number under the current request key. |
| `Replies.ReplyDelivered` | src/Parser.cpp:261-465 | Every reply of the protocol that is not an error line takes the parser from the start state to exactly the state that has its result. |
| `Replies.ErrorLine` | src/Parser.cpp:314-443 | `ERROR`, `CLIENT_ERROR` and `SERVER_ERROR` lines end parsing with their error code, in the error state, after exactly the line. |
| `Replies.RoundTrip` | include/Common.h:159-220 | A complete answer (any replies the mode allows, then a last one or one for each key), followed by anything, is parsed to exactly the results it was printed from, with the error code of its last line, leaving what follows unread. |
| `Replies.RoundTripAfter` | src/Parser.cpp:91-98 | A call may start where an earlier answer has ended, in the start, end or error state: the answer is parsed in the same way and its results are added to those there are. |
| `UnexpectedReplies.ReadUnsignedCases` | src/BufferReader.cpp:278-330 | A number is not yet whole exactly if there are fewer than two bytes or digits only, and is none exactly if the first of two bytes is not a digit; else its digits are all that come first, and its value is what they denote modulo 2^64. |
| `UnexpectedReplies.FieldsWrap` | src/Parser.cpp:125-157 | Keys of any length and numbers of up to 64 bits in their fields: the key length modulo 2^8, flags and value length modulo 2^32, and what is left of the value one more, modulo 2^32. |
| `UnexpectedReplies.NumberExpected` | src/Parser.cpp:103-110 | Exactly the bytes that are refused where a number is expected; in the place of a cas number a line may end. |
| `UnexpectedReplies.UnknownIff` | src/Parser.cpp:461-464 | A programming error that uses up nothing is reported exactly for a first byte that begins no reply. |
| `UnexpectedReplies.SpinsIff` | src/Parser.cpp:115-122 | Exactly the bytes at which the loop changes nothing and so never ends: `V`, `E` or `N` with a second, second or fifth byte that no reply has there. |
| `UnexpectedReplies.WrongBytesAfter` | src/Parser.cpp:261-465 | After any replies of a retrieval such bytes leave the results so far as they are and are left unread. |
| `UnexpectedReplies.EndWhileCounting` | src/Parser.cpp:115-122 | `END`, `OK` or `VERSION` while replies are counted: the result is added, and the loop neither ends nor goes on. |
| `UnexpectedReplies.MessageWithoutKey` | src/Parser.cpp:36-52 | A message for which no request key is left is where the original would read past the keys. |
| `Receiving.PrefixIncomplete` | src/Parser.cpp:92-93 | A proper prefix of a complete answer always gives INCOMPLETE: the loop neither ends nor fails nor spins nor runs past the keys. |
| `Receiving.AnswerInChunks` | src/Parser.cpp:91-258 | A complete answer in nonempty chunks of any sizes: all are taken, every call but the last asks for more, and the results are those the answer was printed from. |
| `Receiving.KeptIsFinished` | src/ConnectionPool.cpp:560-568 | What `collectRetrievalResult` keeps are exactly the finished values, plus one more while the line of a value announced as 2^32 - 1 bytes long is being read. |
| `Receiving.TornIffWrapped` | src/ConnectionPool.cpp:560-568 | A result that is not complete is handed out if and only if the parser is inside the line of a value announced as 2^32 - 1 bytes long. |
| `Receiving.RunKeepsFinished` | src/Parser.cpp:115-257 | Over any run finished values are never touched again. |
| `Receiving.TruncationSafety` | src/ConnectionPool.cpp:555-570 | For every stream cut anywhere, outside that exception: the results handed out are complete and a prefix of the values finished when everything has arrived. |
| `Receiving.TruncatedAnswer` | src/ConnectionPool.cpp:555-570 | For any prefix of a complete answer, in any chunks, without a value of 2^32 - 1 bytes: what is handed out is a prefix of the values sent, read off the answer, each with all its data. |
| `Receiving.ArrivedHandedOut` | src/ConnectionPool.cpp:555-570 | Nothing that has arrived is held back: when the first replies of an answer are among the bytes received, whatever follows, their values are handed out. |
| `Receiving.SafelyCutIff` | src/ConnectionPool.cpp:560-568 | A complete answer can be cut anywhere, in any chunks, with only complete values handed out, a prefix of those sent, if and only if it has no value of 2^32 - 1 bytes. |
| `Receiving.MaxLengthWraps` | src/Parser.cpp:152-153 | Cut after the length of such a value, the answer leaves a torn result. |
| `Receiving.TornValueExample` | src/Parser.cpp:152-153 | The input that shows the exception: `VALUE k 0 4294967295` and a carriage return. |
| `Receiving.RunAttributed` | src/Parser.cpp:36-52 | In counting mode, on every stream: the key index never passes the keys, and the finished results carry the first `m_requestKeyIdx` keys, each once and in order. |
| `Receiving.OnePerKey` | src/Parser.cpp:211-234 | When counting ends with OK there is one result for each key; without numbers the i-th reply is tagged with the i-th key. |
| `Receiving.OkMeansAllKeys` | include/Parser.h:65-68 | Counting ends with OK only when every key has been answered. |
| `DataBlocks.DataBlock.Find` | src/DataBlock.cpp:93-96 | The position of the first such byte at or after the start, or the size. |
| `DataBlocks.DataBlock.FindNotNumeric` | src/DataBlock.cpp:99-107 | The position of the first byte that is not a digit, or the size. |
| `BlockQueue.PassRelease` | include/DataBlock.h:61-64 | Passing bytes and releasing them never takes more than is counted, and keeps the list in order and balanced. |
| `BlockQueue.PassSlice` | src/BufferReader.cpp:210-230 | Passing bytes and handing them to a token keeps the list in order and the counts equal to unread bytes plus token bytes. |
| `BlockQueue.FreeSlice` | src/BufferReader.cpp:446-450 | Releasing a live slice never underflows and keeps the balance. |
| `BlockQueue.CopySlice` | src/BufferReader.cpp:479-489 | Copying a slice is counted like the original, with multiplicity. |
| `BlockQueue.Append` | src/BufferReader.cpp:113-121 | Committing a chunk appends it to the unread bytes and keeps the balance. |
| `BlockQueue.DenoteStable` | src/BufferReader.cpp:188-232 | What a token stands for does not change when more bytes arrive. |
| `BlockQueue.AllReusable` | src/DataBlock.cpp:110-112 | When everything has been read and every token freed, every count is zero. |
| `BufferReaders.BufferReader.Peek` | src/BufferReader.cpp:160-185 | The byte `offset` places after the cursor, across blocks; INCOMPLETE exactly if there are not that many. |
| `BufferReaders.BufferReader.ReadUntil` | src/BufferReader.cpp:188-232 | Cuts exactly the bytes before the first such byte; the token denotes them; INCOMPLETE exactly if there is none, changing nothing. |
| `BufferReaders.BufferReader.SkipUntil` | src/BufferReader.cpp:235-275 | The same, releasing the bytes. |
| `BufferReaders.BufferReader.ReadUnsigned` | src/BufferReader.cpp:278-330 | Agrees with the flat reader on the unread bytes for every placement of block boundaries; an error changes nothing. |
| `BufferReaders.BufferReader.ReadBytes` | src/BufferReader.cpp:333-364 | Cuts exactly `len` bytes into a token that denotes them, or nothing. |
| `BufferReaders.BufferReader.SkipBytes` | src/BufferReader.cpp:406-430 | Drops exactly `len` bytes and releases them, or nothing. |
| `BufferReaders.BufferReader.PrepareWriteBlock` | src/BufferReader.cpp:70-102 | Finds or adds a block with room, of the size the code asks for, moves the cursor to it if nothing is unread, and says how many bytes fit; the unread bytes are unchanged. |
| `BufferReaders.BufferReader.CommitWrite` | src/BufferReader.cpp:113-121 | The bytes at the write pointer become the last unread bytes; the block is closed exactly if as many bytes again would fill it, full or not. |
| `BufferReaders.BufferReader.Write` | src/BufferReader.cpp:124-135 | Appends all the bytes, over as many blocks as it takes. |
| `BufferReaders.BufferReader.FreeTokenData` | src/BufferReader.cpp:446-450 | Gives up exactly the slices of the token. |
| `BufferReaders.BufferReader.CopyTokenData` | src/BufferReader.cpp:479-489 | The copy holds the same slices once more. |
| `BufferReaders.BufferReader.ParseTokenData` | src/BufferReader.cpp:452-476 | The bytes of a token in one piece, for any reserved size: nothing if slices do not fit, the bytes first if they do not fill it, exactly the bytes if the sizes agree. |
| `BufferReaders.BufferReader.Reset` | src/BufferReader.cpp:37-67 | Only the first block is left, empty and unreferenced. |
| `BufferReaders.BufferReader.BytesConserved` | src/BufferReader.cpp:188-430 | In every reachable state each block counts its unread bytes plus the bytes of live slices, with multiplicity. |
| `BufferReaders.BufferReader.EverythingReusable` | src/DataBlock.cpp:110-112 | Once everything is read and freed, all blocks are reusable. |
| `ParserTokens.ResultsStable` | src/Result.cpp:19-30 | Results that hold their slices do not change when more bytes arrive. |
| `Parsers.PacketParser.ProcessGetStart` | src/Parser.cpp:125-136 | The key is read into a token as the flat parser reads it, and the token is held by the result. |
| `Parsers.PacketParser.ProcessGetBytes` | src/Parser.cpp:158-173 | The cas number is read, or found missing, as by the flat parser. |
| `Parsers.PacketParser.ProcessValue` | src/Parser.cpp:182-210 | The data and the line end after it, as far as the bytes go, as by the flat parser. |
| `Parsers.PacketParser.ProcessLine` | src/Parser.cpp:55-64 | A line is read into a token held by the line result, or not at all. |
| `Parsers.PacketParser.StartState` | src/Parser.cpp:261-468 | `start_state` over blocks is the transition of the flat parser. |
| `Parsers.PacketParser.TakeErrorReply` | src/Parser.cpp:373-389 | The error line is read, freed and reported as by the flat parser; nothing stays referenced. |
| `Parsers.PacketParser.ProcessOne` | src/Parser.cpp:115-257 | One iteration of the loop is one or two transitions of the flat parser. |
| `Parsers.PacketParser.ProcessPackets` | src/Parser.cpp:91-258 | `process_packets` over blocks: the error code, the results and the unread bytes of the flat parser, whatever the block boundaries, and every live slice is held by exactly one result. |
| `Parsers.PacketParser.CopyRetrieval` | src/Result.cpp:19-30 | The copy of a result holds its slices once more. |
| `Parsers.PacketParser.ReallocateRetrievals` | src/Result.cpp:19-42 | Copying all results to a larger vector and destroying the old ones gains and loses no byte reference and changes no result. |
| `Parsers.PacketParser.Inner` | src/Result.cpp:44-56 | Key and value of a result in one piece each, or none if empty, if they have arrived whole. |
| `Parsers.PacketParser.ClearResults` | src/Result.cpp:33-42 | Destroying the results leaves no live slice. |
| `Parsers.PacketParser.Reset` | src/Parser.cpp:471-483 | Nothing of the request is left, and no live slice. |
| `Parsers.PacketParser.AddRequestKey` | src/Parser.cpp:72-76 | The key comes after the others; the results and their hold on bytes are not affected. |
| `Parsers.PacketParser.SetMode` | src/Parser.cpp:31-33 | The mode is the only thing that changes. |
| `Parsers.PacketParser.Rewind` | src/Parser.cpp:486-494 | As if nothing had been received; keys and mode stay. |
| `Octets.Decimal` | include/rapidjson/itoa.h:129-295 | The canonical decimal form: digits only, that denote the number, without a leading zero. |
| `Octets.AccumulateValue` | src/BufferReader.cpp:323-325 | Accumulating digits in 64-bit arithmetic, in any pieces, gives the number they denote modulo 2^64. |
| `Itoa.TableEntry` | include/rapidjson/itoa.h:29-43 | Every pair in the digit table is the two digits of its index. |
| `Itoa.DecimalLength` | include/rapidjson/itoa.h:129-295 | A number below 10^n has at most n digits. |
| `Itoa.U64toa` | include/rapidjson/itoa.h:129-295 | For every 64-bit number the canonical decimal form is written at the buffer position, at most 20 digits, and nothing before it changes. |
| `Itoa.I64toa` | include/rapidjson/itoa.h:297-305 | The signed form, down to -2^63. |
| `Itoa.Int64ToCharArray` | include/Utility.h:14-18 | The signed form in a fresh buffer of 32 bytes, and its length. |
| `BufferWriters.UnsentIsSuffix` | src/BufferWriter.cpp:69-84 | What is to be sent is always the rest of what was queued. |
| `BufferWriters.DropBuffer` | src/BufferWriter.cpp:70-74 | Moving past a buffer that was sent whole loses and repeats nothing. |
| `BufferWriters.CutInOrder` | src/BufferWriter.cpp:76-83 | Cutting the sent part off a buffer loses nothing, and the buffers as queued are kept. |
| `BufferWriters.BufferWriter.TakeBuffer` | src/BufferWriter.cpp:39-45 | The buffer comes after everything queued. |
| `BufferWriters.BufferWriter.TakeNumber` | src/BufferWriter.cpp:48-57 | So does the decimal form of the number. |
| `BufferWriters.BufferWriter.GetReadPtr` | src/BufferWriter.cpp:60-66 | The buffers that are left are, put together, the unsent bytes. |
| `BufferWriters.BufferWriter.CommitRead` | src/BufferWriter.cpp:69-84 | Exactly `nSent` bytes fewer are to be sent, over any buffer boundaries; what a rewind restores is unchanged. |
| `BufferWriters.BufferWriter.Rewind` | src/BufferWriter.cpp:87-93 | Everything queued is to be sent again, byte for byte. |
| `BufferWriters.SentParts` | include/BufferWriter.h:32-42 | What has been sent are the buffers before the index and the part cut off the one at it. |
| `BufferWriters.IsReadIffSent` | include/BufferWriter.h:44-46 | `isRead` tells whether anything has been sent if and only if: at index 0, the first buffer has not been cut; after it, one of the buffers passed was not empty or one has been cut. |
| `BufferWriters.SendMissedIff` | src/BufferWriter.cpp:69-84 | The first send is missed by `isRead` if and only if it stops inside the first buffer. |
| `BufferWriters.WholeIffUnsent` | src/ConnectionPool.cpp:459-466 | A connection that is replaced without a rewind is sent the commands from their beginning if and only if nothing had been sent. |
| `BufferWriters.UnnoticedSend` | src/ConnectionPool.cpp:459-466 | An example: after "se" of "set " the queue looks unsent, and the new connection is sent the rest of the word. |
| `Connections.RetryTransparent` | src/Connection.cpp:355-359 | Any number of attempts with arbitrary partial sends and receives, each ended by a rewind, leave no trace: what follows is what would have happened without them. |
| `Connections.SendsAndReceipts` | src/Connection.cpp:277-325 | Sends and receipts in any order: the bytes the kernel was given are the first ones of the queue, as many as the sends add up to, and the receipts give what the receive loop gives. |
| `Connections.CompleteAttempt` | src/Connection.cpp:277-325 | An attempt that sends everything and receives a complete answer has given the kernel exactly the queued commands and has exactly the results of that answer, under the keys of the request. |
| `Connections.RetriedRequest` | src/Connection.cpp:355-359 | The same after any number of failed attempts. |
| `Connections.Connection.Send` | src/Connection.cpp:277-305 | Of the (at most `MC_UIO_MAXIOV`) buffers offered the kernel accepts some bytes: they are appended to what it was given since the last rewind, and are the next bytes of the queue; 0 is returned only if it was given the whole queue. |
| `Connections.Connection.Offer` | src/Connection.cpp:280-289 | What is offered is all that is to be sent, or the first 1024 buffers of it if there are more. |
| `Connections.Connection.Recv` | src/Connection.cpp:307-321 | The bytes received, as many as fit in a block, are appended to the unread bytes, unless the call only peeks; the results so far do not change. |
| `Connections.Connection.Process` | src/Connection.cpp:323-325 | Parses as the flat parser does. |
| `Connections.Connection.Receive` | src/Connection.cpp:307-325 | A receive and the processing after it are the receive step of the model. |
| `Connections.Connection.Rewind` | src/Connection.cpp:355-359 | A rewind is the rewind step of the model. |
| `Connections.Connection.Reset` | src/Connection.cpp:347-353 | Nothing of the request is left. |
| `Commands.NumbersRead` | src/BufferWriter.cpp:48-57 | A printed number reads back as itself, and as an unsigned number exactly if it has no sign. |
| `Commands.SplitJoin` | src/ConnectionPool.cpp:172-185 | Words with single blanks between them read back as the same words. |
| `Commands.HeaderRead` | include/Keywords.h:17-27 | A server that knows the words "set", "add", "replace", "append", "prepend", "cas", "delete", "touch" and "noreply" reads the line of a storage, delete or touch command back as that command if and only if its key is not empty and no unsigned number was printed with a sign. |
| `Commands.DecodeEncoded` | src/ConnectionPool.cpp:148-191 | A command, followed by anything, is read back by such a server as exactly that command and its bytes if the protocol can express it, otherwise as none. |
| `Commands.Framing` | src/ConnectionPool.cpp:139-192 | A stream of commands with valid keys is read back as exactly those commands if and only if every key is nonempty and every length and cas number is below 2^63. |
| `Commands.EmptyKeyExample` | src/Utility.cpp:16-38 | An empty key is accepted as valid and breaks the framing. |
| `Commands.LargeCasExample` | src/ConnectionPool.cpp:179-182 | A cas number of 2^63 is printed with a sign and breaks the framing. |
| `ConnectionPools.Partition` | src/ConnectionPool.cpp:139-192 | What the connections get, taken together, are exactly the items with a valid key and a connection, each as often as it occurs. |
| `ConnectionPools.EveryKeyCounted` | src/ConnectionPool.cpp:139-147 | If every valid key has a connection, the items sent and the keys counted as invalid add up to the items of the call. |
| `ConnectionPools.ConnectionPool.IsValidKey` | src/Utility.cpp:8-39 | True exactly for keys of at most 250 bytes without blank, CR, LF and NUL. |
| `ConnectionPools.ConnectionPool.QueueCommand` | src/ConnectionPool.cpp:148-191 | The buffers taken one by one are, put together, the encoded command; the key is remembered unless there is no reply. |
| `ConnectionPools.ConnectionPool.QueueCommands` | src/ConnectionPool.cpp:139-192 | Each connection holds exactly the commands routed to it, in input order; invalid keys are counted. |
| `ConnectionPools.ConnectionPool.SettleConnections` | src/ConnectionPool.cpp:194-206 | The connections that have something to send are active, in order, and expect as many replies as keys. |
| `ConnectionPools.ConnectionPool.Dispatch` | src/ConnectionPool.cpp:130-337 | `dispatchStorage`, `dispatchDeletion` and `dispatchTouch`: afterwards every connection holds exactly what is routed to it, exactly those with something to send are active, and the others are as after `reset`. |
| `ConnectionPools.ConnectionPool.QueueKeys` | src/ConnectionPool.cpp:213-240 | Each connection holds the verb and exactly the keys routed to it, in input order. |
| `ConnectionPools.ConnectionPool.DispatchRetrieval` | src/ConnectionPool.cpp:210-252 | The lines of "get" or "gets" are ended and the connections that were asked are active, in the mode that waits for the end. |
| `ConnectionPools.BusyMember` | src/ConnectionPool.cpp:194-201 | A connection is active if and only if something was routed to it. |
| `ConnectionPools.ReadyForReplies` | src/ConnectionPool.cpp:194-206 | A connection that replies are expected from has the counting mode, the keys of the commands routed to it, and their number. |
| `ConnectionPools.CommandFraming` | src/ConnectionPool.cpp:130-207 | The bytes queued on a connection are read by a server as exactly the commands routed to it, in order, if and only if the protocol can express them. |
| `ConnectionPools.RetrievalFraming` | src/ConnectionPool.cpp:210-252 | What is queued for a retrieval is one line, read by a server as "get" or "gets", whichever was asked for, and exactly the keys routed to the connection if and only if none of them is empty. |
| `ConnectionPools.ConnectionPool.CollectMessageResult` | src/ConnectionPool.cpp:573-582 | The results of the active connections, one connection after the other. |
| `ConnectionPools.ConnectionPool.CollectRetrievalResult` | src/ConnectionPool.cpp:555-570 | The values of the active connections, one connection after the other, keeping those with `bytesRemain` zero; `RetrievalAttribution` says what these are. |
| `ConnectionPools.ConnectionPool.Reset` | src/ConnectionPool.cpp:638-646 | After either dispatch, resetting the active connections leaves all connections fresh. |
| `ConnectionPools.ConnectionAttribution` | src/Parser.cpp:36-52 | When a connection ends with OK, its replies carry the keys of the commands routed to it, in order. |
| `ConnectionPools.Attribution` | src/ConnectionPool.cpp:573-582 | When the active connections, in the mode and with the keys that the dispatch left in them, have ended with OK, the collected results carry exactly one (key, status) for each routed command, over all connections. |
| `ConnectionPools.MessageAttribution` | src/ConnectionPool.cpp:573-582 | When each active connection has been sent one message for each of its commands, the results collected are exactly these messages, each with its kind and the key of its command, connection by connection. |
| `ConnectionPools.RetrievalAttribution` | src/ConnectionPool.cpp:555-570 | When each active connection has been sent a whole answer, which it parses in the mode that `dispatchRetrieval` left in it, the results collected are exactly the values in these answers, each with its key, flags, cas number and all its data, connection by connection. |
| `ConnectionPools.NoReplyExpected` | src/ConnectionPool.cpp:194-206 | After commands without replies a connection expects none, and its parser ends before it has looked at a byte. |
| `Ketama.FirstAliveAtLeast` | src/HashkitKetama.cpp:125-134 | The first point of an alive server from the lower bound on is the lower bound on the ring of alive servers. |
| `Ketama.OwnerByWalking` | src/HashkitKetama.cpp:113-145 | Walking from the lower bound, around the end of the ring, finds what lower bound with wraparound finds on the ring of alive servers. |
| `Ketama.OwnerNearest` | src/HashkitKetama.cpp:108-115 | The owner is the server of a nearest point: none lies between the hash value and it or, if no point is at or after the hash value, none lies before it. |
| `Ketama.NoneIffAllDead` | src/HashkitKetama.cpp:135-138 | No server is found exactly when every server is dead. |
| `Ketama.OnlyItsKeysMove` | src/HashkitKetama.cpp:123-142 | Losing a server moves only the keys that were its own. |
| `Ketama.SingleOwner` | src/HashkitKetama.cpp:95-97 | With a single server no hash is needed. |
| `Ketama.Answers` | src/HashkitKetama.cpp:83-145 | In every mode: without a liveness check the answer is the owner among all servers; with one it is an alive server, the owner as long as that is alive; a dead owner gives no answer without failover, and with failover none exactly if all servers are dead. |
| `Ketama.HundredEach` | src/HashkitKetama.cpp:46-72 | The ring has a hundred points for each server, hashed from the names of the server with the numbers 0 to 99. |
| `Ketama.PointNameInjective` | src/HashkitKetama.cpp:50-62 | The name of a point tells the name of its server and its number. |
| `Ketama.PointsDiffer` | src/HashkitKetama.cpp:56-62 | Two servers without aliases share the name of a point if and only if host, port and number are the same, whether or not the port is the default one; the hosts are the same or have no colon. |
| `Ketama.NameExamples` | src/HashkitKetama.cpp:50-62 | The names at the default port, at another port and with an alias, for a host "mc". |
| `Ketama.KetamaSelector.AddServers` | src/HashkitKetama.cpp:43-80 | The ring is sorted and is a permutation of a hundred points for each server. |
| `Ketama.KetamaSelector.LowerBound` | src/HashkitKetama.cpp:108-109 | The position that separates smaller hash values from the others. |
| `Ketama.KetamaSelector.WalkOn` | src/HashkitKetama.cpp:124-138 | The failover walk ends at the next point of an alive server, around the end, or at none after a full round. |
| `Ketama.KetamaSelector.GetServerIt` | src/HashkitKetama.cpp:83-145 | With failover and liveness checks: the owner on the ring of alive servers; without failover: the owner if alive; without checks: the owner. |
| `Ketama.KetamaSelector.GetServer` | src/HashkitKetama.cpp:148-154 | The index of that server, or -1. |
| `Crc.BitStepLinear` | src/HashkitCrc.cpp:83 | The bit step of section 8 of RFC 1952 is linear over exclusive or. |
| `Crc.TableEntry` | src/HashkitCrc.cpp:8-73 | Each of the 256 entries is what eight bit steps make of its index. |
| `Crc.EightStepsByTable` | src/HashkitCrc.cpp:83 | Eight bit steps on `x` are `(x >> 8)` xor the entry of `x & 0xff`, for every register value. |
| `Crc.HashCrc32` | src/HashkitCrc.cpp:75-87 | For every key shorter than 2^32 bytes the result is the reflected bit-at-a-time CRC-32 of section 8 of RFC 1952. |
| `Crc.CheckValue` | src/HashkitCrc.cpp:75-87 | The published check value: 0xCBF43926 for the digits 1 to 9. |
| `Md5.RotateRotates` | src/HashkitMd5.cpp:97 | The shifts and the or rotate, by each amount that is used. |
| `Md5.SameOperation` | src/HashkitMd5.cpp:99-102 | The macro, with its rearranged auxiliary functions, is the operation of section 3.4 of RFC 1321, in each round. |
| `Md5.Process` | src/HashkitMd5.cpp:76-197 | Sixty-four written-out lines compute the compression of section 3.4 of RFC 1321, with its word order, shifts and table. |
| `Md5Contexts.PadLengthIsLeast` | src/HashkitMd5.cpp:265-266 | The padding is the least, at least one byte, that leaves eight bytes in the last block. |
| `Md5Contexts.OneLengthLeavesRoom` | src/HashkitMd5.cpp:265-266 | Up to one block of padding only this length does. |
| `Md5Contexts.PaddingIsPrefix` | src/HashkitMd5.cpp:241-247 | The padding constant starts with the padding of section 3.1 of RFC 1321, of every length needed. |
| `Md5Contexts.Carry` | src/HashkitMd5.cpp:213-217 | Adding to the length in two 32-bit words, the carry found by comparison. |
| `Md5Contexts.BitLength` | src/HashkitMd5.cpp:258-260 | The two words shifted by three are the length in bits modulo 2^64. |
| `Md5Contexts.LengthBytes` | src/HashkitMd5.cpp:262-263 | Written one after the other they are its eight bytes, low-order first. |
| `Md5Contexts.PadWhole` | src/HashkitMd5.cpp:265-269 | A padded message is a whole number of blocks. |
| `Md5Contexts.Md5Context.Update` | src/HashkitMd5.cpp:202-239 | The context after `m` and an update of less than 2^32 bytes is the context after `m` with the input appended: counts, state and buffered tail. |
| `Md5Contexts.Md5Context.Finish` | src/HashkitMd5.cpp:252-275 | The output is the digest of the message by sections 3.1 to 3.5 of RFC 1321, which `Md5Digests` ties to published values. |
| `Md5Contexts.DigestOfChunks` | src/HashkitMd5.cpp:202-275 | For every split of a message into updates the digest is that of the message. |
| `Md5Contexts.Md5Sum` | src/HashkitMd5.cpp:280-289 | The digest of one input. |
| `Md5Contexts.HashMd5` | src/HashkitMd5.cpp:292-302 | The first four bytes put together are word A of the final state, the value `Md5Digests.DigestOfLetters` computes for one key. |
| `Md5Digests.InitialBytes` | src/HashkitMd5.cpp:70-73 | The initial registers are the bytes that section 3.3 of RFC 1321 lists. |
| `Md5Digests.DigestOfLetters` | src/HashkitMd5.cpp:76-302 | The digest that appendix A.5 of RFC 1321 gives for the 62 letters and digits, computed through all 128 operations of its two blocks, and the hash value 0x98AB74D1 of that key. |
| `LockPools.LockPool.Enter` | include/LockPool.h:22-33 | `lock` up to its wait: the lock is taken, or the thread is last in the queue. |
| `LockPools.LockPool.WakeUp` | include/LockPool.h:27-28 | After the wait the front of the queue leaves it. |
| `LockPools.LockPool.Unlock` | include/LockPool.h:35-41 | The lock is opened if nobody waits, else the front is notified. |
| `LockPools.LockPool.AddWorkers` | include/LockPool.h:66-80 | The new indices follow the old ones at the back of the available workers; then `unlock`. |
| `LockPools.LockPool.TakeWorker` | include/LockPool.h:82-90 | The first available worker is taken; the next thread is let in exactly if more are left. |
| `LockPools.LockPool.ReleaseWorker` | include/LockPool.h:92-96 | The worker is available again, first; then `unlock`. |
| `LockPools.GrowByPositive` | src/ClientPool.cpp:115-123 | Growing adds something exactly if there is a client already and growth is not limited to zero. |
| `LockPools.GrowsByMost` | src/ClientPool.cpp:115-123 | Growing adds the largest number of clients that keeps within the limit on clients and the limit on growth and does not more than double them; their workers are added at its end. |
| `LockPools.StepInv` | src/ClientPool.cpp:91-143 | Every step (initialise, arrive, wake, release, begin and end of growth) keeps the invariant, provided the pool does not grow by nothing while no worker is available. |
| `LockPools.RunInv` | src/ClientPool.cpp:91-143 | So does every run in which that never happens. |
| `LockPools.PoolSafety` | include/LockPool.h:66-96 | In every such run: nobody pops an empty list, grants are strictly in order of arrival, every client handed out exists and is used by one thread, and a waiting front is notified whenever a worker is available. |
| `LockPools.GrowKeepsIff` | src/ClientPool.cpp:115-123 | The invariant survives growing if and only if something is added or workers are available anyway. |
| `LockPools.GrowBreaksIff` | include/LockPool.h:82-90 | After growing, some thread can take a worker from the empty list in its next step if and only if nothing was added and no worker is available. |
| `LockPools.MayBreakIff` | src/ClientPool.cpp:115-136 | A pool has a run in which a worker is taken from the empty list if and only if it may have a client, or, when it is never grown before its initialisation, if growth is limited to zero and two clients are allowed. |
| `LockPools.GrowByNothingBreaks` | src/ClientPool.cpp:125-136 | A run that shows it: a client is asked for before initialisation, growth adds nothing, the thread is woken and finds no worker. |
| `LockPools.GrowthOfZeroBreaks` | src/ClientPool.cpp:115-123 | The run of an initialised pool: one client is taken, a second thread waits, growth adds nothing and wakes it. |
| `LockPools.InitialisedGrows` | src/ClientPool.cpp:115-123 | A pool initialised first always grows by something, if growth is not limited to zero or there is no room to grow. |
| `GoPools.SweepKeeps` | src/golibmc.go:618-628 | The swap-and-shrink loop of the cleaner takes out exactly the expired connections and loses none. |
| `GoPools.Client.MaybeOpenNewConnections` | src/golibmc.go:271-287 | As many tokens are sent as there are requests, within the limit; none if closed. |
| `GoPools.Client.PutConnLocked` | src/golibmc.go:414-439 | Refused if closed or above the limit; else sent to a request, which is removed, or kept as free; `GoPoolRuns.PutAccepted` says what that means for runs. |
| `GoPools.Client.TakeExpired` | src/golibmc.go:616-628 | The loop is the sweep. |
| `GoPools.Client.BeginConn` | src/golibmc.go:461-532 | A free connection, a request, or leave to open one, as the limit says; the state changes accordingly. |
| `GoPools.Client.FinishQuit` | src/golibmc.go:1500-1508 | The count goes down; new connections may be opened if the command succeeded. |
| `GoPools.Client.Close` | src/golibmc.go:1454-1462 | Every pending request is told and the pool is closed. |
| `GoPoolRuns.SweepBooks` | src/golibmc.go:616-635 | Expired connections go from the free list to the cleaner, none is lost. |
| `GoPoolRuns.PutBooks` | src/golibmc.go:421-437 | A connection put back is in one channel or in the free list. |
| `GoPoolRuns.PutAccepted` | src/golibmc.go:414-439 | An open pool accepts every connection a caller puts back, also when it is full: it is sent to the request picked, which leaves the map and has a goroutine waiting for it, or, if there is none, goes to the end of the free list; nothing else changes. |
| `GoPoolRuns.OpenerPutAccepted` | src/golibmc.go:315-323 | So it is with a connection that the opener has opened. |
| `GoPoolRuns.PutRefused` | src/golibmc.go:392-403 | A closed pool accepts none; whoever has it quits it. |
| `GoPoolRuns.HandedOver` | src/golibmc.go:421-433 | The goroutine that waits for the request picked has the connection after receiving from its channel. |
| `GoPoolRuns.ReceiveChannels` | src/golibmc.go:514-527 | Receiving empties the channel; a closed one gives no connection. |
| `GoPoolRuns.DeleteChannels` | src/golibmc.go:506-511 | After its deletion a cancelled request can only have a connection its own goroutine will take. |
| `GoPoolRuns.PutBounds` | src/golibmc.go:421-433 | The request that is satisfied has an open, empty channel. |
| `GoPoolRuns.OpeningBounds` | src/golibmc.go:271-287 | Opening keeps `numOpen` within `maxOpen`; if `maxOpen` is at most the size of the opener channel, it never finds that channel full. |
| `GoPoolRuns.OpensAsManyAsAllowed` | src/golibmc.go:271-287 | After an attempt to open a connection has failed, and after a quit that succeeded, as many tokens are sent as there are requests, or as many as `maxOpen` leaves room for; none after a quit that failed or when the pool is closed. |
| `GoPoolRuns.StepInv` | src/golibmc.go:271-532 | Every step of every goroutine (callers, opener, cleaner, `Quit`) keeps the invariant. |
| `GoPoolRuns.RunInv` | src/golibmc.go:271-642 | So does every interleaving, for any number of callers and any `maxOpen` but zero. |
| `GoPoolRuns.PoolSafety` | src/golibmc.go:392-542 | In every interleaving, for every constant `maxOpen` > 0: `numOpen` is opener tokens plus connections being opened plus live ones and never exceeds `maxOpen`; every connection ever created is in exactly one place, or was quit, once; no send hits a closed or satisfied request channel; and the opener channel never blocks its sender if `maxOpen` is at most 1000000. |
| `GoPoolRuns.ServedIff` | src/golibmc.go:1502-1508 | That `maxOpen` is reached or a connection is coming for each request is kept by every step, except exactly by a quit that fails while fewer are coming than there are requests. |
| `GoPoolRuns.RunServed` | src/golibmc.go:271-287 | So in every run without a failed quit no request of an open pool waits while fewer connections are open and coming than are allowed and needed. |
| `GoPoolRuns.StrandedRequest` | src/golibmc.go:1504-1508 | A run with one failed quit, after which a caller waits, nothing is open and nothing is coming: the only steps are a new call, giving up, a sweep and `Quit`. |
| `GoPoolRuns.MayBlockIff` | src/golibmc.go:38-43 | A sender of the opener channel has to wait in some interleaving if and only if `maxOpen` is above 1000000. |
| `GoPoolRuns.BlockingRun` | src/golibmc.go:271-287 | Such an interleaving: as many callers as connections are allowed fail to open one while as many others wait. |
| `GoPoolRuns.NothingLeaks` | src/golibmc.go:505-521 | When no goroutine is at work no connection is left in any channel, cancelled requests included, and all live connections are free and counted. |
| `GoPoolRuns.QuitClosesAll` | src/golibmc.go:1447-1478 | After `Quit` and the remaining tokens every connection ever created has been quit and none is counted. |
| `ChunkedStores.JoinPieces` | libmc/_client.pyx:682-685 | Splitting a value and joining its pieces are inverse. |
| `ChunkedStores.PieceKeyInjective` | libmc/_client.pyx:684 | Piece keys of different values or places never coincide. |
| `ChunkedStores.PieceKeyReserved` | libmc/_client.pyx:526 | They all begin like no key of a user. |
| `ChunkedStores.ReadLast` | libmc/_client.pyx:520-545 | While the invariant holds, reading is exactly the last value and flags set, or a miss; and a miss if and only if the entry of the key, or a piece of a value larger than one of them, is not on the servers. |
| `ChunkedStores.LargeSetMatches` | libmc/_client.pyx:679-693 | A large set whose pieces were all replied to and whose meta entry is stored has left no wrong piece if and only if every piece that was refused had no entry, or the right one, before. |
| `ChunkedStores.LargeSetSafe` | libmc/_client.pyx:679-693 | Known beforehand: this is so whatever is refused if and only if every piece of the new value that is on the servers already is right. |
| `ChunkedStores.FailedSetMatches` | libmc/_client.pyx:689-692 | A large set reported as failed has left the value that was there as it was if and only if every piece stored all the same is beyond its end or equal to its own. |
| `ChunkedStores.FailedSetSafe` | libmc/_client.pyx:689-692 | Known beforehand: this is so whatever is stored if and only if no piece of the new value differs from the one of the old value it takes the place of. |
| `ChunkedStores.OthersMatch` | libmc/_client.pyx:670-693 | A set does not affect other keys. |
| `ChunkedStores.DropInv` | libmc/_client.pyx:528-530 | Losing any entry, pieces included, is never wrong. |
| `ChunkedStores.StepInv` | libmc/_client.pyx:670-693 | Every set, successful or not, that meets these conditions, every rejected set, delete and eviction keeps the invariant. |
| `ChunkedStores.HarmlessRuns` | libmc/_client.pyx:520-545 | After any run of such steps, failed sets included, reading a key gives a miss or exactly the value and flags last set successfully under it. |
| `ChunkedStores.NoTornValues` | libmc/_client.pyx:520-545 | After any run of successful sets, deletes and evictions of single entries, reading a key gives a miss or exactly the value and flags set last under it. |
| `ChunkedStores.SetThenGet` | libmc/_client.pyx:533-545 | Whatever was there before: after a set of which every entry is stored, and any steps that are not about the key and drop none of its entries, reading gives exactly the value and the flags of the set. |
| `ChunkedStores.Layout` | libmc/_client.pyx:679-693 | The entry of the key has the number of pieces, rounded up, and the flags with bit 12 set; piece `i` is the `i`-th million of bytes, under `~`, the length of the key, the key, `/` and `i`. |
| `ChunkedStores.TornValue` | libmc/_client.pyx:689-692 | A run that shows why sets must succeed: after a set of which one piece was refused, reported as failed or not, reading gives a mixture. |
| `ChunkedStores.PyClient.Set` | libmc/_client.pyx:670-693 | The effect of `_set` on the servers; and its result: that of the one entry up to 1000000 bytes, false above ten million bytes or 200 bytes of key, else whether all pieces were replied to and the meta entry was stored. |
| `ChunkedStores.PyClient.StorePieces` | libmc/_client.pyx:781-826 | Each piece is stored, lost or refused on its own; the result tells only whether all were replied to. |
| `ChunkedStores.PyClient.GetMultiRaw` | libmc/_client.pyx:573-600 | Exactly the entries that were found. |
| `ChunkedStores.PyClient.GetLargeRaw` | libmc/_client.pyx:520-531 | The joined pieces and the flags without the mark, or a miss if any piece is missing, the number is above 10 or the key longer than 200 bytes. |
| `ChunkedStores.PyClient.GetRaw` | libmc/_client.pyx:533-545 | The value, the joined pieces, or a miss, which `ReadLast` and `SetThenGet` say when; an exception if a meta entry is no number. |
| `ChunkedStores.NulsStripped` | libmc/_client.pyx:541 | Zero bytes are taken off the text of a meta entry at both ends, and nothing else. |

## Left out

- Sockets, `poll`, `connect`, `getaddrinfo`, clocks and logging: a send or receive is a nondeterministic number of bytes, the liveness of servers is a function.
- `ConnectionPool::waitPoll` as a loop and as an exact counter of active connections: a connection can be counted down twice there; its sends, receives, rewinds and parsing are steps of `Connections`.
- Parsers.PacketParser.ProcessPackets: on replies outside the protocol the original spins or reads past the request keys; the model returns `Livelock` or `KeyOverrun` there.
- `expectBytes` and all assertions: they exist in debug builds only.
- `m_size` and `m_capacity` of the reader: statistics that nothing depends on.
- `RetrievalResult::inner` keeps the pieces it has put together; the model of `Inner` puts them together each time, and does not say who frees the copy.
- The 8-bit `key_len` handed to callers: keys in replies are at most 250 bytes by the protocol.
- BufferWriters.BufferWriter.TakeBuffer: requires that no send has stopped inside a buffer, because `rewind` would lose the new buffer; the callers queue everything before they send.
- BufferReaders.BufferReader.Reset: requires that all tokens have been freed, which `Connection` does first; the original only warns.
- Parsers.PacketParser.Inner: says nothing about the piece handed out for a part that has not arrived whole, which its callers never ask for, except its size.
- ConnectionPools.ConnectionPool.Dispatch: a connection is what the pool has given it (queued bytes, keys, counter and mode), not a `Connection` object; the server chosen for each key is a parameter, and its liveness is that of the moment it was asked.
- ConnectionPools.Attribution: is about streams without numbers (storage, deletion, touch); `dispatchIncrDecr`, with its single key, is covered by `Receiving.OnePerKey` only.
- `dispatchIncrDecr`, `broadcastCommand` and their results: one command line on one or on all connections, nothing to spread.
- Ketama.KetamaSelector.GetServerIt: the liveness of servers does not change during a lookup; the hash functions are parameters, so a `snprintf` that truncates very long server names is not modelled; `std::sort` is any sort.
- `splitServerString`, FNV hash functions, error-code texts, configuration: easy or foreign.
- Md5.Process: the table T is that of RFC 1321, written down and not derived from the sine.
- Md5Contexts.Md5Context.Update: the words of the length are numbers modulo 2^32, with shifts as divisions; an update is shorter than 2^32 bytes, because the code truncates the length it adds.
- Crc.HashCrc32: keys are shorter than 2^32 bytes; the 32-bit index of the original would not end on longer ones.
- LockPools.PoolSafety: no spurious wakeups of condition variables (the original waits without a predicate), no changes of the limits at run time; the mutex of each worker is never contended and left out.  It is about runs in which the pool never grows by nothing while no worker is available; `LockPools.MayBreakIff` says which pools have other runs.
- GoPoolRuns.PoolSafety: `maxOpen` is constant and positive, as the count is not bounded otherwise; the lifetime of connections is any set of expired ones; safety only: that goroutines take their steps is not part of it, and after a quit that fails a waiter may wait for ever (`GoPoolRuns.ServedIff`).  A sender that finds the opener channel full is marked as blocked and the run goes on as if there were room.
- The goroutine of the cleaner is always there and sweeps at any time; the original starts and ends it.
- ChunkedStores.NoTornValues: keys of users do not begin with `~` and their flags do not have bit 12, which mark pieces and meta entries; all sets of the run are successful, `TornValue` shows why, and `HarmlessRuns` is about the others.  A set that was reported as failed, but did store the entry of its key, counts as one that was made.
- ChunkedStores.PyClient.GetRaw: a meta entry with a sign, blanks or underscores, which `_set` never writes, is answered with an exception, where `int` would read it.
- ChunkedStores.PyClient.Set: always asks for replies; with `noreply` nothing is known about success.
- Prefixes and `normalize_key`, marshal, pickle and zlib, `set_multi` and `get_multi` of the Python client: around the core, and foreign.
