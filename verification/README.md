# memtier_skewsyn, verified

A Dafny model of the deterministic machinery of memtier_skewsyn, a load generator for redis and memcached that skews its
load towards one server thread. Code that updates objects in place is modelled by classes whose methods carry the same
loops and branches and are proved against specification functions; what the program promises is proved about these
functions, for all inputs, runs or reachable states. Where a promise does not hold, the lemma says exactly when it does.

| file | what it covers |
|---|---|
| CText, Bytes, Division | C library text routines and libevent buffer operations, network byte order, division facts |
| Fragmentation | resumable parsers in general: what it takes not to depend on how input is cut into reads |
| MemcacheText, MemcacheBinary | the two memcached response parsers |
| RedisReply, RedisArrays, RedisUnbuildable, RedisStreams, Protocol, RedisProtocol | the redis response parser: state machine, array trees, arrays it cannot report, streams and their cuts, and the same on linked objects |
| RespCommands, BinaryCommands, KeyList | request writers, read back by decoders; the multi-get key list |
| Crc16, SlotTable, ClusterClient | key slots, the slot table built from CLUSTER SLOTS replies, and the request router |
| SkewSchedule | the schedule of real and dummy connections and the rates derived from it |
| Pipeline | one connection over a run: queue, setup commands, counters, reconnects |
| RatioMachine | the SET/GET ratio machine and its replaying twin |
| RunStats, RunAccounts | per-second statistics, totals, latency maps and their merging, and what they say of the updates made |
| CsvDump, JsonHandler, JsonReader, WeightList, WeightGrammar, KeyRange | dump files, the streaming JSON writer, weighted sizes and the texts they are parsed from, parallel key ranges |

Text is `string`, a character standing for a byte; 32-bit unsigned fields are bounded types and their wrap-around is
written out where the parsers compute with lengths. Times, keys drawn, latency buckets, what servers answer, which
connection attempts fail and how much the clock lets through are inputs. Histories (keys handed out, requests sent) are
ghost fields.

Points where the code does less than one would expect, each with its exact condition in the table: the redis parser
does not report arrays with empty arrays, nulls or status lines in them, and loses a bulk element whose body is late; an
error ends the working off of a read event, so that replies behind it wait for the next one; the assertion of the
reconnect branch can fail with a pipeline above 1; the rates miss the goal unless clients come in full batches without
piling up; between two WAITs there is one SET more than the ratio says; key ranges leave the key space when there are few keys for many clients; rates over no time make the JSON
file unreadable.

## Model

| member | source | states |
|---|---|---|
| Fragmentation.PumpSplits | shard_connection.cpp:360 | The driver loop, which ends at a wait and at an error, does with a buffer and then with what comes behind it what it does with both at once, when the calls are stable and no error leaves bytes behind from which another call would take or make anything. |
| Fragmentation.ChunksEqualWhole | shard_connection.cpp:540-562 | For any resumable parser: if what has arrived at the end of each read event leads to stable calls only, and no error leaves bytes of consequence, then read events for any chunks give the same reports and the same leftover bytes as one event for the whole stream, and every later call does the same. |
| Fragmentation.CleanStreamFragments | shard_connection.cpp:360-431 | The same for every cutting, from two conditions that are checked once, on the whole stream. |
| Fragmentation.AnyCutIffQuiet | shard_connection.cpp:360 | For a clean stream the condition on errors is exact: all cuttings agree with the whole if and only if no error leaves bytes behind on which another call would do more than wait; otherwise cutting behind the error shows. |
| MemcacheText.StableIffNotFragile | protocol.cpp:635-724 | A call may be interrupted without changing the outcome, whatever bytes come later, if and only if it meets no value whose announced length wraps around when 2 is added (buffers below 2 GiB). |
| MemcacheText.FragmentationIndependent | protocol.cpp:635-724 | A stream of text responses that announces no wrapping length may be cut anywhere if and only if no complete line stands behind its first malformed one: the driver ends at -1 and goes on only at the next read event. |
| MemcacheText.ReplyBehindError | protocol.cpp:635-724 | Any malformed line followed by STORED: in one read event only the error is reported and STORED stays unread, cut between them both are, the second with the malformed line as its status. |
| MemcacheText.CountsConsumedBytes | protocol.cpp:641-648 | Over any number of calls the response length equals the bytes consumed since the response began, and a complete response reports that total. |
| MemcacheText.HeaderScans | protocol.cpp:657-672 | The `sscanf` of a VALUE line gets the length, with or without the cas field, for every key without blanks. |
| MemcacheText.ParsesReply | protocol.cpp:635-724 | Every list of VALUE blocks with END, and STORED, is reported once with its status, total length and as many hits as blocks, and read to its last byte; data may hold CRLF and END. |
| MemcacheText.OtherLinesAreErrors | protocol.cpp:675-685 | A line that begins with none of VALUE, END and STORED, first or behind any list of values, makes the call return -1 with the error flag set and leaves what follows the line. |
| MemcacheText.LastLinesEnd | protocol.cpp:675-682 | A line that begins with END or STORED, first or behind any list of values, makes the call return 1 with the error flag clear. |
| MemcacheText.ShortValueLines | protocol.cpp:660-674 | A VALUE line without a key, a number for the flags or a number for the length makes the call return -1 with the error flag clear, and the rest is left. |
| MemcacheText.AnyChunkingYieldsTheReplies | protocol.cpp:635-724 | However a stream of such responses is cut, exactly these responses come out in order and nothing is left over. |
| MemcacheText.MemcacheTextProtocol.ParseResponse | protocol.cpp:635-724 | The loop over the state fields and the buffer computes the specification `Parse` on the old state and buffer. |
| MemcacheBinary.StableIffNotFragile | protocol.cpp:893-977 | A call may be interrupted without changing the outcome if and only if it meets no body too short for the extras and key it announces. |
| MemcacheBinary.FragmentationIndependent | protocol.cpp:893-977 | A stream of binary responses with well-sized bodies may be cut anywhere if and only if fewer than 24 bytes stand behind its first header with a wrong magic byte. |
| MemcacheBinary.ReplyBehindError | protocol.cpp:893-977 | Any header with a wrong magic byte followed by any well-sized response: in one read event the response stays unread, cut between them it is reported. |
| MemcacheBinary.HeaderReads | protocol.cpp:897-914 | The 24 header bytes of a response give back its fields in network byte order. |
| MemcacheBinary.StatusShown | protocol.cpp:848-926 | Each of the 16 named statuses is shown by its name and any other by none; exactly the statuses 0x20, 0x21, 0x81, 0x83 and 0x85 are errors. |
| MemcacheBinary.ParsesReply | protocol.cpp:893-977 | Every well-sized response is reported once with the name of its status, the error flag for five statuses, a hit for a body with status 0 and, when values are kept, its value; its length is counted and it is read to its last byte. |
| MemcacheBinary.AnyChunkingYieldsTheReplies | protocol.cpp:893-977 | However a stream of such responses is cut, exactly these responses come out in order and nothing is left over. |
| MemcacheBinary.MemcacheBinaryProtocol.ParseResponse | protocol.cpp:893-977 | The loop over the header, state and buffer computes the specification `Parse` on the old state and buffer. |
| RedisReply.StableIffNotFragile | protocol.cpp:379-528 | A redis call may be interrupted without changing the outcome if and only if it makes no hasty turn: a bulk element of an array whose header has come without its body, or a kept bulk value whose length wraps. |
| RedisReply.FragmentationIndependent | protocol.cpp:379-528 | A stream of redis replies without arrays may be cut anywhere if and only if no complete line stands behind its first unsupported one. |
| RedisReply.FragileDiffers | protocol.cpp:466-491 | For every hasty call there are later bytes with which resuming gives another outcome than not having been interrupted. |
| RedisReply.HeaderLost | protocol.cpp:466-491 | A bulk element whose body is incomplete returns 0 with its header line consumed and nothing built. |
| RedisReply.ParseKeeps | protocol.cpp:437-493 | While an array is read nodes are only added: values stay as they are, and an array keeps its children in their places and gains new ones behind them. |
| RedisArrays.ParsesFlat | protocol.cpp:413-434 | Status, error, integer, bulk, null bulk and null array replies are each reported once, with status, error flag, hit, total length and kept value as the code sets them, and read to the last byte. |
| RedisArrays.AnyChunkingYieldsTheReplies | protocol.cpp:379-528 | However a stream of such replies is cut, exactly these replies come out in order and nothing is left over. |
| RedisArrays.ReplyBehindError | protocol.cpp:379-528 | Any unsupported line followed by any reply that is no array: in one read event the reply stays unread, cut between them it is reported. |
| RedisArrays.BuildsOne | protocol.cpp:437-493 | A complete element, nested to any depth, counts the stack down by one element, adds exactly as many nodes as it has, which hold exactly its tree, changes no other node but its parent, and stops at its last byte. |
| RedisArrays.BuildsAll | protocol.cpp:151-170 | The elements an open array lacks, or the first of them, become its children in order, each with its own tree; the level leaves the stack with the last one. |
| RedisArrays.OpenedArray | protocol.cpp:151-157 | An array header counts its parent down, so that a parent lacking nothing else has left the stack before the first element of its last child is read, and the child's level lies where the parent's was. |
| RedisArrays.BuildsTree | protocol.cpp:394-412 | For every tree of non-empty arrays, integers and bulk strings, fully buffered, the in-place stack builder returns exactly that tree, with no further node and an empty stack, and stops at its last byte. |
| RedisUnbuildable.ParsedIffBuildable | protocol.cpp:437-493 | Every valid array reply, nulls and status lines in it included, is reported up to its last byte if and only if it is made of integers, bulk strings and arrays with elements, and then with its tree (buffers below 4 GiB - 1). |
| RedisUnbuildable.StuckNeverReports | protocol.cpp:159-170 | A level with a count of 0 is counted down to 4 GiB - 1 elements: no buffer shorter than what is then owed completes the reply. |
| RedisUnbuildable.NullElementSwallows | protocol.cpp:466-489 | Whatever the stack, a null bulk inside an array takes all bytes behind it for its value; the reply is reported if and only if it was the last element owed. |
| RedisUnbuildable.ReadsTames | protocol.cpp:437-493 | Elements without nulls and empty arrays are read to their end, and the open arrays are then owed one element less for each of them and one more for every status or error line in them, which is passed over. |
| RedisUnbuildable.WildsSpoil | protocol.cpp:437-493 | With a null or an empty array among the elements the call waits, or it has taken everything up to the end of the buffer, bytes behind the array included. |
| RedisStreams.CutElement | protocol.cpp:466-491 | A call that sees only the first k bytes of an element is hasty if and only if the cut falls between the end of a bulk's header line and the bulk's last byte, at any depth. |
| RedisStreams.SettledIffNoGap | protocol.cpp:379-528 | In a stream of replies, arrays with them, a read may end at k and be resumed with whatever follows if and only if k is not in such a gap of a bulk inside an array. |
| RedisStreams.HarmlessCuts | protocol.cpp:379-528 | However a stream of replies is cut, as long as no cut is in a gap, every reply is reported in order as it was sent, arrays with their trees, and nothing is left over. |
| RedisStreams.CutElementIsLost | protocol.cpp:466-491 | A bulk element cut anywhere in its gap, under any stack, is lost if nothing follows it: the first read builds nothing, and what the second makes of the rest of the element is never this element. |
| RedisStreams.ElementReappears | protocol.cpp:466-491 | With a next header behind it, an element that repeats that header is built after all, from its own text and the header. |
| RedisArrays.ParseKeepsRooted | protocol.cpp:151-170 | Every element created hangs under exactly one earlier element, in exactly one place, whatever the stack looks like. |
| RedisArrays.AnyRunKeepsRooted | protocol.cpp:151-170 | The same for any bytes in any pieces over any number of calls: nothing created is lost or shared. |
| RedisProtocol.RedisProtocol.AddMbulkValue | protocol.cpp:159-170 | The new element is appended to the children of the array on top of the stack, whose count goes down, and which leaves the stack at 0. |
| RedisProtocol.RedisProtocol.AddMbulkArray | protocol.cpp:151-157 | The same, and the new array becomes the top of the stack even when its parent has just left it. |
| RedisProtocol.RedisProtocol.ParseResponse | protocol.cpp:379-528 | On objects linked in place, a call leaves state, stack, tree and buffer as the specification `Parse` says; elements are only those before or fresh ones. |
| RedisProtocol.DecodedWalks | protocol.cpp:172-174 | Walking the linked elements from any of them gives the tree the specification decodes there. |
| RedisProtocol.ReceiveArray | protocol.cpp:379-412 | With a whole array reply in the buffer, one call returns 1 with exactly that tree of objects hanging from the response and the bytes behind it unread. |
| RespCommands.RequestsReadBack | protocol.cpp:244-344 | Any requests written one after the other read back as the same argument lists, whatever bytes the arguments hold. |
| RespCommands.CommandFromArgs | protocol.cpp:244-377 | No two commands have the same arguments: SET, SETEX, SETRANGE, GET, GETRANGE, WAIT, SELECT, AUTH and CLUSTER SLOTS are told apart with their operands. |
| RespCommands.CommandsReadBack | protocol.cpp:198-377 | Any sequence of commands decodes uniquely to the same commands and operands. |
| RespCommands.NumberLength | protocol.cpp:349-361 | The comparison cascade gives the number of digits printed for every 32-bit number. |
| RespCommands.RedisWriter.WriteCommandSet | protocol.cpp:244-301 | Appends exactly the request of SETRANGE if there is an offset, else of SET without an expiry and of SETEX with one, and returns its length; what has been sent and what is buffered stay the requests of all calls made. |
| RespCommands.RedisWriter.WriteCommandGet | protocol.cpp:309-344 | Appends exactly the request of GET or GETRANGE and returns its length. |
| RespCommands.RedisWriter.WriteCommandWait | protocol.cpp:363-377 | Appends exactly the request of WAIT, its length fields computed by the digit cascade, and returns its length. |
| RespCommands.RedisWriter.SelectDb | protocol.cpp:198-212 | Appends exactly the request of SELECT and returns its length. |
| RespCommands.RedisWriter.Authenticate | protocol.cpp:214-227 | Appends exactly the request of AUTH and returns its length. |
| RespCommands.RedisWriter.WriteCommandClusterSlots | protocol.cpp:229-242 | Appends exactly the 28 bytes of CLUSTER SLOTS and returns 0, not the length. |
| RespCommands.WrittenReadsBack | protocol.cpp:198-377 | A server that reads what a writer has sent and buffered since it was connected, through any calls and partial writes, decodes exactly the calls made, in order, with their operands. |
| BinaryCommands.ReadsPacket | protocol.cpp:796-840 | A request packet followed by anything reads back with its opcode, extras, key and value, and leaves what follows. |
| BinaryCommands.RequestFromPacket | protocol.cpp:754-840 | SET, GET and SASL PLAIN requests, the last with its credentials between NULs as section 2 of RFC 4616 has them, are recovered from their packets. |
| BinaryCommands.Layout | protocol.cpp:754-840 | Every byte of every request: magic 0x80, opcode 0x01, 0x00 or 0x21, key and body length with the most significant byte first, zeros in the unused fields, then flags 0 and the expiry for SET, key and value, or PLAIN and the credentials behind NULs. |
| BinaryCommands.RequestsReadBack | protocol.cpp:754-840 | Any sequence of binary requests decodes uniquely to the same requests. |
| BinaryCommands.BinaryWriter.WriteCommandSet | protocol.cpp:796-819 | Appends exactly the SET packet and returns its length; what has been sent and what is buffered stay the packets of all calls made. |
| BinaryCommands.BinaryWriter.WriteCommandGet | protocol.cpp:821-840 | Appends exactly the GET packet and returns its length. |
| BinaryCommands.BinaryWriter.Authenticate | protocol.cpp:754-789 | Splits the credentials at the first colon and appends exactly the SASL PLAIN packet of the two parts. |
| BinaryCommands.WrittenReadsBack | protocol.cpp:754-840 | What a writer has sent and buffered decodes to exactly the calls made, in order, when lengths fit their header fields and credentials hold no NUL. |
| KeyList.KeyList.AddKey | protocol.cpp:1029-1054 | A key is appended to the list of keys, the earlier ones untouched in the shared buffer, and refused exactly when all slots are taken. |
| KeyList.KeyList.GetKey | protocol.cpp:1061-1068 | The key added at an index, or nothing beyond the last. |
| KeyList.KeyList.Clear | protocol.cpp:1070-1074 | The list is empty again. |
| KeyList.TextWriter.WriteCommandMultiGet | protocol.cpp:594-627 | Appends "get", the keys in the order they were added, each behind a blank, and CRLF; the result is the number of bytes. |
| KeyList.MultiGetReadsBack | protocol.cpp:594-627 | Split at blanks, the line is the command name and the keys, each once and in order, for every key without a blank. |
| Crc16.TableEntry | cluster_client.cpp:55-88 | Each of the 256 table entries is eight steps of the division by the polynomial 0x1021. |
| Crc16.TableStepIsDivision | cluster_client.cpp:94 | One table step is eight bit steps of the division, for every register and byte. |
| Crc16.Crc16 | cluster_client.cpp:90-96 | The loop computes the bit-by-bit CRC with initial value 0 of every byte string. |
| Crc16.CalcHslot | cluster_client.cpp:98-102 | The slot is the CRC modulo 16384: the mask keeps the lower fourteen bits. |
| Crc16.CheckValue | cluster_client.cpp:90-96 | The CRC of "123456789" is 0x31c3, the check value of the Redis Cluster specification ("Appendix A: CRC16 reference implementation in ANSI C"). |
| SlotTable.SlotsGoToLastCover | cluster_client.cpp:208-255 | After a reply each slot it covers maps to the connection of the last range covering it, and every other slot is unchanged. |
| SlotTable.SpellsAll | cluster_client.cpp:208-226 | Every such list of ranges within the table has a reply that spells it and meets what the code reads without looking. |
| SlotTable.SlotsServed | cluster_client.cpp:208-255 | For every list of ranges spelled as a CLUSTER SLOTS reply of low and high slot, host and port, with whatever behind them: each slot covered names a connection to the host and port of the last range covering it, and every other slot is as before. |
| SlotTable.AllConnectedGrows | cluster_client.cpp:229-243 | Connections are only added, no address gets two, and every address of the reply has one. |
| SlotTable.ReplyMakesTotal | cluster_client.cpp:245-248 | A reply over all slots makes every entry name an existing connection, and any reply keeps a total table total. |
| SlotTable.HandlingTwiceIsOnce | cluster_client.cpp:208-255 | Handling the same reply again changes neither connections nor table. |
| ClusterClient.OwnerByCrc | cluster_client.cpp:282-287 | The connection a key belongs to is the table's entry at the CRC, modulo 16384, of the bytes of the prefix and then of the decimal digits of its index. |
| ClusterClient.ClusterClient.AddShardConnection | cluster_client.cpp:156-165 | A connection and its empty pool are appended together. |
| ClusterClient.ClusterClient.HandleClusterSlots | cluster_client.cpp:208-255 | For every reply each slot names a connection to the host and port that the last range covering it was spelled with, and others are unchanged; there is one pool for each connection; keys and counts stay conserved however the reply moves slots, keys already kept staying with the connection they were kept for. |
| ClusterClient.ClusterClient.HoldPipeline | cluster_client.cpp:257-267 | Holds exactly when requests are limited, the connection's pool is empty and the limit is reached. |
| ClusterClient.ClusterClient.DrawKey | cluster_client.cpp:280-297 | One turn of the search: the drawn key goes to the asking connection, to its owner's pool, or is dropped exactly when that pool is full; conservation is kept. |
| ClusterClient.ClusterClient.GetKeyForConn | cluster_client.cpp:269-303 | The key at the front of the connection's pool if there is one, else the outcome of the search: it belongs to the connection unless a reply has moved its slot since, and no key is dropped while fewer requests than a limit that fits a pool are generated. |
| ClusterClient.ClusterClient.CreateRequest | cluster_client.cpp:306-356 | A call sends a WAIT, SET or GET as the counters say, with a key owned by the connection, or nothing; each counter advances exactly when its request is sent, both start over when both are at their shares, and keys and requests are conserved. |
| ClusterClient.ClusterClient.FollowsRatio | cluster_client.cpp:323-355 | The SETs and GETs of a client are full cycles of its ratio, SETs first, and the part of one that the counters tell, whatever connections ask and whatever WAITs and failed searches come between. |
| ClusterClient.ClusterClient.KeepsPace | cluster_client.cpp:308-320 | At every point the first request sent was a WAIT, and one WAIT follows the other after floor(a/b) + 1 SETs; none is sent when the ratio is off. |
| ClusterClient.ClusterClient.PoolsWithinGenerated | cluster_client.cpp:290-294 | No pool ever holds more keys than requests have been generated, so none is full before the limit is reached. |
| ClusterClient.ClusterClient.SearchKey | cluster_client.cpp:279-302 | The unbounded loop stops at the first draw whose key belongs to the connection or with which the keys taken reach the request limit: no earlier draw was of the connection, none but the last reached the limit, and a key comes out exactly when the last one is its own. It needs no more than that there is such a draw. |
| ClusterClient.ClusterClient.LimitEnds | cluster_client.cpp:280-302 | With a limit that is positive and fits a pool there is such a draw for every key stream and every connection, also after replies that moved slots. |
| ClusterClient.ClusterClient.GeneratedAddsUp | cluster_client.cpp:269-356 | In every reachable state, however slots were moved, the generated count is keys sent plus keys waiting in all pools plus WAITs, and the number of draws is keys sent plus keys waiting plus keys dropped at a full pool. |
| ClusterClient.ClusterClient.HandedByDraw | cluster_client.cpp:279-297 | In every reachable state what a connection was sent and what waits for it are the keys of strictly increasing draws kept for it and for no other connection, so nothing is reordered or duplicated; while no reply has moved their slots they are keys of its own, and if nothing was dropped all of its draws. |
| ClusterClient.KeyParked | cluster_client.cpp:290-294 | A key put into its owner's pool keeps the conservation law. |
| ClusterClient.FrontHanded | cluster_client.cpp:271-277 | Handing out the front of a pool keeps the conservation law, and the key was kept for that connection. |
| ClusterClient.KeyHanded | cluster_client.cpp:286-289 | So does handing a drawn key to the connection that asks. |
| ClusterClient.HandedInOrder | cluster_client.cpp:269-303 | The keys sent on a connection are, in order, a prefix of the keys kept for it, all of them once its pool is empty, and nobody else's. |
| SkewSchedule.Client.Prepare | client.cpp:360-428 | Failed dummy connections are retried without being counted, the padding loop ends, and counters and server thread are those of the specification; a failed real connection leaves the padding counted. |
| SkewSchedule.PaddingIsLeast | client.cpp:371-383 | The padding reaches the next multiple of the thread count and stops at the first. |
| SkewSchedule.ClosedForm | client.cpp:368-422 | The j-th real connection of batch b, with k of every batch skewed, has total index (bk+j)T on thread 0 for j < k and (bk+k-1)T + (j-k+1) on thread j-k+1 otherwise, whichever clients take the lock. |
| SkewSchedule.NoSkewNoDummies | client.cpp:371-383 | A skew level of at most 1 makes no dummy connections and gives thread i mod T. |
| SkewSchedule.PiledUp | client.cpp:368-422 | After any number of connections thread 0 has k of each full batch and up to k of the last, another thread at most one of each, and the last k-1 threads none. |
| SkewSchedule.Master.constructor | memtier_benchmark.cpp:1145-1163 | The first rates: the skewed one for thread 0, the other one for all other threads. |
| SkewSchedule.Master.Advance | memtier_benchmark.cpp:1228-1244 | A later interval overwrites the rates in place with those of its goal and skew. |
| SkewSchedule.GoalIsConserved | client.cpp:399-412 | With two or more server threads the rates all clients read through their thread sum to the goal if and only if the goal is 0, the skew asks for a fair share, or the level is at most 1 and the clients come in full batches; for every interval. |
| SkewSchedule.FullBatches | memtier_benchmark.cpp:1228-1244 | With full batches thread 0's clients sum to k times skew times goal, and all clients to that plus (T-k)/(T-1) of the rest of the goal. |
| SkewSchedule.GoalIsConservedByOne | memtier_benchmark.cpp:1150-1163 | With a single server thread all clients together sum to skew times goal. |
| Pipeline.EveryRunIsSafe | shard_connection.cpp:352-492 | At every point of every run against an in-order server: the k-th response is matched with the k-th request, the pending count is the queue's length, generated minus processed is the data in flight and fits the pipeline, and a request limit is overrun by less than a pipeline. |
| Pipeline.EveryConnectSetsUp | shard_connection.cpp:256-350 | In every run, and again for what is sent from each connect to the next: if anything is sent, AUTH is first exactly when it is configured, then SELECT exactly when it is configured, and then come only data requests; every reconnect comes when a multiple of the interval has been sent. |
| Pipeline.FilledMeans | shard_connection.cpp:440-462 | One fill sends nothing at the request limit or when what is generated reaches the next multiple of the interval; otherwise exactly the setup commands not sent yet and then as many requests as there is time and room for. |
| Pipeline.ReceivedMeans | shard_connection.cpp:360-433 | A batch of good answers matches the front of the queue, notes each setup command answered in it, and counts its data requests; if that makes a multiple of the interval, the client reconnects with nothing sent and its setup due again, or fails if anything is pending; otherwise it fills the pipeline. |
| Pipeline.AnsweredBadly | shard_connection.cpp:369-414 | At the first setup command whose answer fails its check the loop stops with that command popped and not done. |
| Pipeline.ReconnectAssertion | shard_connection.cpp:420-431 | The assertion of the reconnect branch holds in every run if and only if the pipeline is 1, or requests are limited and the interval is at least requests + pipeline - 1; otherwise a failing run is constructed. |
| Pipeline.StepKeepsInv | shard_connection.cpp:352-492 | Every event keeps the invariant: accounts, setup requests before all data and at most one of each, bounds. |
| Pipeline.StuckFromIdle | shard_connection.cpp:448-457 | From any idle point below the interval: single requests up to it, then a full pipeline, reach the failed assertion. |
| Pipeline.Client.HoldPipeline | client.cpp:267-281 | Holds at the request limit, and when the generated requests reach the next multiple of the reconnect interval above the processed ones. |
| Pipeline.ShardConnection.PopReq | shard_connection.cpp:309-316 | The front of the queue is removed and the pending count stays that of the queue. |
| Pipeline.ShardConnection.SendConnSetupCommands | shard_connection.cpp:329-350 | Each setup command not sent yet is pushed and marked sent, in the order AUTH, SELECT, CLUSTER SLOTS. |
| Pipeline.ShardConnection.FillPipeline | shard_connection.cpp:440-492 | Consults the hold once, sends setup commands without returning, then requests while the clock and the pipeline allow; the invariant is kept. |
| Pipeline.ShardConnection.MatchResponses | shard_connection.cpp:360-414 | The response loop pops a request for each response, acts on its kind and stops at a setup error. |
| Pipeline.ShardConnection.ProcessResponse | shard_connection.cpp:352-433 | Reconnects when a response was handled and the interval divides the processed count, fills the pipeline otherwise; the invariant is kept, and the assertion holds under the exact condition. |
| RatioMachine.OneRequest | client.cpp:284-358 | A call keeps the counters within the ratio, never leaves them at the end of a cycle, and sends exactly one request unless the ratio is 0:0 and no WAIT is due. |
| RatioMachine.ClientFollowsRatio | client.cpp:284-358 | Whatever WAITs come between, the calls of the object generator are full cycles of a objects and then b keys, and the part of one that the counters tell, multi-get batches included. |
| RatioMachine.RequestIs | client.cpp:284-358 | Which request a call sends, by the counters: WAIT when there was none or the SETs for each WAIT exceed the ratio, SET while the cycle lacks SETs, else a GET or a multi-get of as many keys as configured or as the cycle lacks, whichever is less. |
| RatioMachine.RequestsCarryCalls | client.cpp:284-358 | Over a run the requests carry exactly the keys drawn, the counters count SETs and WAITs, single GETs and multi-gets are never mixed, and no multi-get has more keys than configured. |
| RatioMachine.WaitsKeepPace | client.cpp:286-290 | At every point of a run with WAITs the first request was a WAIT, and there are between (q+1)(w-1) and (q+1)w SETs for w WAITs, q the integer quotient of the ratio; without the ratio no WAIT is sent. |
| RatioMachine.VerifyFollowsRatio | client.cpp:476-527 | The same for the verifying client, whose reset takes a call of its own. |
| RatioMachine.ReplayTurn | client.cpp:476-527 | After its reset, if one is due, the verifying client makes the client's calls, and sends a GET exactly where the client sends a SET. |
| RatioMachine.TwinReplays | client.cpp:476-527 | Without WAITs every point of a client's run is reached by its twin after the same calls of the generator, in at most twice as many turns. |
| RatioMachine.TwinAddsNothing | client.cpp:476-527 | The twin never makes a call the client does not make. |
| RatioMachine.Client.FillKeyList | client.cpp:328-338 | The multi-get loop ends because the key list has one slot more than a multi-get has keys, and collects exactly the keys drawn, in order. |
| RatioMachine.Client.CreateRequest | client.cpp:284-358 | Counters, request and generator calls are those of the specification, the keys sent are the keys drawn, and the generated count goes up with each request. |
| RatioMachine.Client.CreateVerifyRequest | client.cpp:476-527 | The same for the verifying client, which counts a GET it does not send as processed. |
| RunStats.RunConserves | client.cpp:816-886 | For updates in any order of times not before the start: seconds strictly increase and end before the current one, and seconds plus current second, totals and latency maps all add up to the updates. |
| RunStats.SecondsAreExact | client.cpp:816-823 | With times that never go back each second holds exactly what happened in it. |
| RunStats.SummaryAgrees | client.cpp:1120-1136 | After the end time is set once the summary's operations and bytes equal the totals; before it they do only if the current second is empty. |
| RunStats.MergeAddsUp | client.cpp:1080-1104 | Merging keeps seconds sorted and unique, loses none, and adds second by second. |
| RunStats.MergesCommute | client.cpp:1071-1118 | Merging two clients in either order gives the same seconds, totals and latency maps. |
| RunStats.OrderDoesNotMatter | client.cpp:689-696 | The merged statistics of a group do not depend on the order of its clients. |
| RunStats.MergeConserves | client.cpp:1080-1117 | Sums over seconds, operation and byte totals and latency map counts are added; the total latency is not merged. |
| RunAccounts.CountersAddUp | client.cpp:816-886 | For updates at any times: each of the ten counters, summed over all seconds, is the sum of what the updates add to it. |
| RunAccounts.SecondsHold | client.cpp:816-886 | With times that never go back: the seconds strictly increase, each counter of an entry is the sum over the updates whose time is in that second, and every update has an entry. |
| RunAccounts.TotalsAndMaps | client.cpp:825-886 | The totals count all updates, their bytes and latencies, and each entry of each latency map is the number of updates of its kind with that bucket. |
| RunAccounts.MergedSums | client.cpp:1071-1118 | After merging, each counter of each second, the operations and bytes, and each entry of each latency map are the sums of the two. |
| RunAccounts.GroupSums | client.cpp:689-696 | The same for all clients of a group. |
| RunStats.RunStats.RollCurStats | client.cpp:816-823 | A later second pushes the current one and starts empty. |
| RunStats.RunStats.UpdateGetOp | client.cpp:825-849 | A GET is added to the current second, the totals and its bucket of the GET latency map, and to nothing else. |
| RunStats.RunStats.UpdateSetOp | client.cpp:851-873 | A SET likewise. |
| RunStats.RunStats.UpdateWaitOp | client.cpp:875-886 | A WAIT likewise. |
| RunStats.RunStats.SetEndTime | client.cpp:805-814 | The current second is pushed, and stays. |
| RunStats.RunStats.Merge | client.cpp:1071-1118 | The search and sort leave the merged seconds of the specification. |
| RunStats.RunStats.Summarize | client.cpp:1120-1136 | The loop adds up all pushed seconds into the operations of each kind, all operations and all bytes. |
| CsvDump.QuotedReadsBack | file_io.cpp:106-192 | Reading a quoted text of the length asked for returns exactly the text, with quotes, commas, NULs and line breaks in it, and leaves what follows. |
| CsvDump.OverlongMissesComma | file_io.cpp:106-192 | Asked for more than the quotes hold, the reader runs over the closing quote and past the comma. |
| CsvDump.UnquotedReads | file_io.cpp:106-192 | A text without quotes ends in front of a comma or a line end, or behind as many characters as are asked for; a quote ends it and is taken; the end of the file before that gives nothing. |
| CsvDump.NumbersScanBack | file_io.cpp:219-227 | The eight printed columns scan back, and scanning stops at the key's quote. |
| CsvDump.RowText | file_io.cpp:380-417 | The text of a row: dumpflags, time, exptime, length, nsuffix, flags, class and key length in decimal, the key and the data without its CRLF in double quotes, separated by commas and blanks. |
| CsvDump.OpensIff | file_io.cpp:59-86 | A file is opened if and only if it starts with "dumpflags, time, exptime", and its first line, or 78 characters of it, are skipped. |
| CsvDump.ItemReadsBack | file_io.cpp:206-287 | An item is written and read back with nothing else touched if and only if its key is not empty and has no NUL, its payload is not empty and its data ends with CRLF. |
| CsvDump.KeyGivenUp | file_io.cpp:247-258 | A row without the comma behind its key is given up one character further; fewer than two bytes of data announced leave no room for their CRLF. |
| CsvDump.DataGivenUp | file_io.cpp:256-265 | A row whose data is cut off by the end of the file, or shorter than announced, is given up where the data ends. |
| CsvDump.LineEndsAlike | file_io.cpp:269-277 | A line may end in CRLF as well as in a line feed, or in any other single character. |
| CsvDump.FileReadsBack | file_io.cpp:59-86 | A file with the header, written item by item for any list of such items, is opened and read to its end with the same items in order. |
| CsvDump.FileReader.CopyCharacters | file_io.cpp:115-163 | The flag-driven character loop computes the specification, stepping back one byte at an unquoted comma or line end. |
| CsvDump.FileReader.ReadString | file_io.cpp:106-192 | With the closing quote handled, for every file content and length. |
| CsvDump.FileReader.ReadItem | file_io.cpp:206-287 | All results and file positions of a row, its error returns included, are those of the specification. |
| CsvDump.FileWriter.GetQuotedStr | file_io.cpp:343-372 | Every quote is doubled, whether or not the shortcut for texts without quotes is taken. |
| CsvDump.FileWriter.WriteItem | file_io.cpp:380-417 | Appends exactly the row; an empty payload is reported as a write failure with the row half written. |
| JsonHandler.StepBack | JSON_handler.cpp:98-117 | The byte stepped back over is a comma when the nesting has members and a tab otherwise, and what is left, closed, is the nesting as the recursive printer shows it. |
| JsonHandler.MemberJoins | JSON_handler.cpp:65-74 | A member written at the end of the file joins the innermost open nesting. |
| JsonHandler.InnerClosed | JSON_handler.cpp:98-117 | Closing an inner nesting makes it a member of the one around it. |
| JsonHandler.DestroyedShows | JSON_handler.cpp:50-58 | The destructor's file is the printed document of whatever was still open. |
| JsonHandler.StreamIsPrinter | JSON_handler.cpp:31-133 | For every tree, the calls that describe it followed by the destructor leave the text of the recursive printer. |
| JsonReader.DocumentReadsBack | JSON_handler.cpp:31-133 | A reader of RFC 8259 objects, arrays, strings, numbers and literal names recovers the tree from that text if and only if members of objects are named, those of arrays are not, names need no escapes and every value is a string, a number or a literal name, blanks around it aside. |
| JsonReader.FixedIsNumber | client.cpp:1176-1191 | What "%.2f" and the like print of a finite number is a number of RFC 8259. |
| JsonReader.IntegerIsNumber | memtier_benchmark.cpp:281-319 | So is what "%u" and "%d" print. |
| JsonReader.NotANumberFails | client.cpp:1176-1180 | A document with nan or inf as a value anywhere, which is what a rate over no time prints, does not read back. |
| JsonHandler.JsonHandler.Beutify | JSON_handler.cpp:121-133 | A line break and a tab for each open nesting. |
| JsonHandler.JsonHandler.WriteObj | JSON_handler.cpp:65-74 | The file describes the open nestings with the new member. |
| JsonHandler.JsonHandler.OpenNesting | JSON_handler.cpp:81-93 | The file describes the open nestings with a new, empty one. |
| JsonHandler.JsonHandler.CloseNesting | JSON_handler.cpp:98-117 | The innermost nesting becomes a member; closing the outermost finishes the document; nothing happens after that. |
| JsonHandler.JsonHandler.Destroy | JSON_handler.cpp:50-58 | The loop closes everything and leaves the printed document. |
| WeightList.PlaceOf | config_types.cpp:163-175 | An entry and its use count stand for a place of the list with each size repeated weight times, with that size and from that entry. |
| WeightList.WeightList.GetNextSize | config_types.cpp:163-175 | The n-th call gives the size and uses the entry at place n modulo the total weight of that expansion; zero weights are skipped by a loop that ends whenever the total is positive. |
| WeightList.NoWeightNoEnd | config_types.cpp:165-171 | With a total weight of 0 the skipping loop's guard holds at every entry. |
| WeightList.AnyWindow | config_types.cpp:163-175 | As many elements in a row of a sequence repeated for ever as it is long are a permutation of it, wherever they start. |
| WeightList.EntryCounts | config_types.cpp:163-175 | Every entry stands in the expansion exactly weight times. |
| WeightList.SizeCounts | config_types.cpp:163-175 | A size stands in the expansion as often as the weights of all its entries say together. |
| WeightList.WeightList.FullRound | config_types.cpp:163-175 | As many consecutive calls as the total weight, wherever they start, use each entry exactly weight times and give each size as often as its entries' weights say. |
| WeightList.PrintParses | config_types.cpp:116-143 | Parsing what is printed restores the list, for every list of 32-bit sizes and weights. |
| WeightGrammar.ParsesGrammar | config_types.cpp:116-143 | A text is taken if and only if it is a list of size:weight entries with commas between them and maybe behind the last, each number blanks, sign and digits or nothing; each way to read it gives the list, with numbers clamped to 64 bits, negated and cut to 32 as strtoul does; any other text clears the list. |
| WeightList.Parse | config_types.cpp:116-143 | The parsing loop, malformed input clearing the list, computes the specification. |
| WeightList.Print | config_types.cpp:177-193 | The printing loop joins the entries with commas when the buffer has room. |
| KeyRange.ObjectGenerator.GetKeyIndex | obj_gen.cpp:360-379 | The n-th sequential key is the range's start plus n modulo its size, or the start over and over for an inverted range. |
| KeyRange.DrawnInTurn | obj_gen.cpp:369-378 | The keys drawn go up one by one from the lower to the upper end and start again; a range upside down gives its lower end each time. |
| KeyRange.EachComesUp | obj_gen.cpp:369-378 | From any draw on, each key of the range comes up within as many draws as it has keys. |
| KeyRange.AllKeysDrawn | client.cpp:118-126 | Every key of the space is among the first floor((max-min)/N)+1 keys of one of the N clients, even when the last range is inverted. |
| KeyRange.NoKeyTwice | client.cpp:118-126 | No two clients draw a common key in that many requests, the last one with its cut or inverted range included. |
| KeyRange.NoWrap | memtier_benchmark.cpp:353-358 | For every client and every one of the requests `allkeys` stands for: the key drawn is consecutive from the range's start if and only if the client is not the last or the key space is not exceeded, the first request apart. |
| KeyRange.RangesInside | client.cpp:118-126 | All client ranges are inside the key space if and only if quotient plus remainder of (max-min)/N is at least N-1. |
| KeyRange.ManyKeysInside | client.cpp:118-126 | So they are when max-min is at least N(N-1). |
| KeyRange.SecondRunOutside | client.cpp:126 | The client index is never reset: the clients of a second run start above the key space. |
| KeyRange.Setup.SetupClient | client.cpp:118-126 | Each client gets the next range, the last one what is left over, as long as the ends fit the `int` variables they are put in. |
| KeyRange.EndsFitInRange | client.cpp:119-121 | For key spaces whose rounded-up ranges stay below 2 GiB this holds for every client of a run. |

## Left out

- Sockets, libevent events, DNS, threads, mutexes and `evbuffer` internals: a buffer is a sequence, a locked section one step, a server answers in order.
- Clocks, cycle counters, random and Gaussian sources, Poisson and uniform intervals, rounding of latencies: arbitrary inputs.
- Option parsing, printing of results, external commands, shell and Python scripts, percentiles.
- Memory ownership, counters beyond their width, write and read failures.
- `memcache_text_protocol::write_command_set` and `write_command_get`: plain `printf` lines like those that are modelled.
- Kept values of memcached text, which end in an assertion; multi-get for redis and binary, which is not implemented.
- Averages and rates per second of the statistics: floating point without an exact law.
- RunStats.RunStats.Merge: leaves out the start and end times, which the code averages in floating point.
- RunStats.RunStats.Summarize: the counts of operations and bytes, because the other fields of the summary are rates and averages in floating point.
- KeyList.KeyList.AddKey: keys of at most 255 characters, because longer ones make the code reallocate the buffer.
- The verdict a verifying client passes on a response, and WAIT commands in a verified load.
- Disconnects with requests in flight, and reconnecting or padding in cluster mode.
- Fragmentation.ChunksEqualWhole: the driver also ends a read event when a setup command fails, which depends on the queue of requests and is modelled in Pipeline.
- RedisProtocol.RedisProtocol.ParseResponse: the stack's levels are values in a sequence instead of objects of their own, because nothing but the stack refers to them.
- ClusterClient.ClusterClient.SearchKey: assumes a draw at which it stops, because the code has no other end; LimitEnds gives one under a limit that fits a pool.
- Pipeline.ShardConnection.FillPipeline: the two counters belong to one client with one connection; kinds of requests are inputs here and come from RatioMachine.
- SkewSchedule.GoalIsConserved: rates are real numbers, so rounding of `double` is not modelled.
- CsvDump.FileReader.ReadItem: a key cut off by the end of the file, a row with fewer than 2 data bytes and a key shorter than announced use memory that is not there, and are one undefined outcome.
- WeightList.Print: a buffer too small for the text is excluded, because the code passes a negative size on.
- KeyRange.Setup.SetupClient: range ends beyond 32-bit `int`, where the code's arithmetic is undefined.
- KeyRange.RangesInside: the ranges' ends fit 32-bit integers, as the code's `int` variables require.
- JsonReader.DocumentReadsBack: names with escapes are not read, because they stand for another text than the one written; text is bytes, so the reader does not ask whether it is UTF-8.
- Hash tags in cluster keys: the code hashes the whole key.
