# Verified model of the SFTP engine, the scan pipeline and the PuTTY key parser

The repository is an SFTP server and client (`src/pkgsftp`, after draft-ietf-secsh-filexfer-02) with a virus-scan
pipeline behind it (`src/ssftp`) and a parser for PuTTY private keys (`src/putty`). This project models its concurrent
and byte-level core in Dafny and proves what that core is for. `dafny verify dfyconfig.toml` checks everything.

| file | what it models |
|---|---|
| `Prelude.dfy`, `Results.dfy` | bytes, errors, the results a reading call receives, and which of them its error comes from |
| `ClientReadAt.dfy` | `File.ReadAt`: a read split into a window of requests, replies in any order, short replies asked for again |
| `ClientWriteTo.dfy` | `File.WriteTo`: read-ahead, early replies parked, a writer that must see the file in order |
| `ClientWrites.dfy`, `MemStore.dfy` | `File.Write`, `File.ReadFrom`, and the in-memory store that parallel workers apply the packets to |
| `Multiplexer.dfy` | `clientConn`: dispatchers, the receive loop and the shutdown broadcast over bounded channels |
| `Responses.dfy` | which response each of the two servers gives to which request |
| `PacketManager.dfy`, `Allocator.dfy` | the controller that restores order, and the page allocator |
| `ServerRuns.dfy` | a whole server at work: receive loop, dispatcher, workers, controller and allocator as one state machine |
| `Wire.dfy`, `Packets.dfy`, `Framing.dfy`, `InPlace.dfy` | the codec: primitives, request packets, framing, marshalling inside the data buffer |
| `Attributes.dfy`, `Directory.dfy` | attribute blocks, NAME replies, directory paging and `Client.ReadDir` |
| `ScanPipeline.dfy` | scavenger, notifier, overlord and scanner goroutines, the routing of files and the copy-then-delete move |
| `Putty.dfy` | the key file reader and `decodeFields` |

How concurrency is treated. A client call (`ReadAt`, `WriteTo`, `Write`, `ReadFrom`) is a method with the server and the
network as a parameter: a function that gives, for every turn and every set of requests in flight, the next result. Every
reply order is one such function, and the contracts hold for all of them; what is assumed of the server is a predicate
beside the method (`KeepsContract`, `NoFalseEof`, `Reliable`, `AllOk`, `AllStatus`). Where a
promise fails for some schedules, the contract gives a schedule that breaks it and the exact condition on the call under
which none does.
For `WriteTo` the contract is full packets except at the end of the file, which both servers give exactly for packets, or
for a tail, of at most 32768 bytes (`src/pkgsftp/packet.go:595`); `ReadAt` allows any non-empty short reply.
`Multiplexer`, `ServerRuns` and `ScanPipeline` are state machines: a `Step` datatype, a predicate `Enabled`, a function
`Next` and an invariant that every step keeps; the theorems quantify over every finite run. Calls to the operating
system, to handlers, to clamd and to base64 are parameters or free choices.

History fields and ghost results only record what happened in a run so that contracts can refer to it: `pages` and `inbox`
(pages taken from the allocator), `handed`, `scans` and `looked` (files handed over, scans made and the content each was
made of), `peak` (the most requests in flight at once), `flushed` (bytes written from parked replies), `current` and `delivered` (the id of the reply in the
receive loop's hands, and which reply was handed to which request).

## Model

| member | source | states |
|---|---|---|
| `ClientReadAt.ReadAt` | src/pkgsftp/client.go:875-965 | For every reply order and pattern of short replies it ends, and unless it reports another error the buffer's prefix equals the file slice, the count is `min(len, size-off)`, the rest of the buffer is untouched, and EOF comes exactly when the request runs past the end; any other error returns 0, and a server that only sends data and EOF causes none. This holds whenever no connection error is `io.EOF`, or the request is empty or starts past the end; if the first result is such an error the call returns 0 and EOF. However it ends, the bytes of the buffer that changed are received ones, each the file's at its place, and unless another error is returned the count is their number. The error returned is that of the last result that was lost or named no request, and without one that of the refused request with the lowest offset, nil if none was refused; no more than `maxConcurrentRequests` requests are ever in flight |
| `ClientReadAt.Counts` | src/pkgsftp/client.go:943-949 | However the call ends, some set of as many bytes as were counted has been received, each at its place |
| `ClientReadAt.ToldTurn` | src/pkgsftp/client.go:922-955 | Every turn keeps the recorded error the one to blame for what has gone wrong so far, in terms of the server's answers alone |
| `ClientReadAt.CutOffIsWrong` | src/pkgsftp/client.go:924-927 | A read cut off at once by `io.EOF` is right exactly when it started past the end |
| `ClientReadAt.DroppingServerExists` | src/pkgsftp/client.go:924-927 | Every request has a schedule that cuts it off at once, within the server's contract |
| `ClientReadAt.Receive` | src/pkgsftp/client.go:922-955 | One result of any kind keeps the invariant and brings the loop closer to its end |
| `ClientReadAt.ReliableServerExists` | src/pkgsftp/client.go:943-949 | The assumptions about the server can be met together, by one that answers a byte at a time |
| `ClientReadAt.SendStep` | src/pkgsftp/client.go:897-917 | Sending the next piece keeps the invariant: every byte of the buffer is unsent, asked for by exactly one request in flight, received or refused |
| `ClientReadAt.StatusStep` | src/pkgsftp/client.go:934-942 | A status reply keeps the invariant, the lowest refused offset is the one remembered, and fewer bytes are open |
| `ClientReadAt.DataStep` | src/pkgsftp/client.go:943-952 | A data reply, full or short, keeps the invariant and leaves strictly fewer bytes open, so the loop ends |
| `ClientReadAt.Finished` | src/pkgsftp/client.go:957-964 | When nothing is in flight and nothing was lost, the bytes received form the prefix that one sequential read would give |
| `ClientWriteTo.WriteTo` | src/pkgsftp/client.go:990-1114 | For every reply order, window limit, size hint and writer: what the writer was given is always a prefix of the file from the start offset, and the internal-inconsistency exit is never taken. A nil error means the whole tail was written with nothing parked, as long as no `io.EOF` comes from the connection or the writer or the start is past the end; an `io.EOF` of either that comes first gives nil with nothing written. A reliable server and an error-free writer always give the whole tail. The returned count is the number of bytes written for every schedule unless `CanPark` holds, a condition on the window limit, the size hint and the file; when it holds, a server that answers the newest request first makes the count too low; in general it is what the writer took of replies that came at the write position. The error returned, up to EOF becoming nil, is that of the last lost result or failed write (the writer's own, or `io.ErrShortWrite` when it gave none), and without one that of the refused request with the lowest offset, in which case exactly the bytes before that offset have been written. No more than `maxConcurrentRequests` requests are ever in flight |
| `ClientWriteTo.NewestFirstExists` | src/pkgsftp/client.go:1079-1098 | There is such a server: reliable, within its contract, and answering the newest request first |
| `ClientWriteTo.ToldTurn` | src/pkgsftp/client.go:1039-1108 | Every turn keeps the recorded error the one to blame for what has gone wrong so far, in terms of the server's answers and the writer's, and the count the bytes written directly |
| `ClientWriteTo.LowestDenialReturned` | src/pkgsftp/client.go:1053-1113 | With a server whose every result answers a request in flight and a writer that takes all, the call returns the error of the refused request with the lowest offset (nil for EOF) and has written exactly what lies before that offset |
| `ClientWriteTo.WrittenUpTo` | src/pkgsftp/client.go:1109-1113 | When nothing but refusals went wrong, the writer was given exactly the file up to the lowest refused offset |
| `ClientWriteTo.EarlyTurn` | src/pkgsftp/client.go:1021-1105 | Against it the first three turns are these: the first tile is written, the third is parked, the second is written and the third flushed without being counted |
| `ClientWriteTo.NarrowReceive` | src/pkgsftp/client.go:1057-1105 | Where `CanPark` does not hold, only the request at the write position can bring data, so nothing is parked and every byte written is counted |
| `ClientWriteTo.OutcomeTurn` | src/pkgsftp/client.go:1021-1109 | Every turn of the loop keeps what decides the count and the false EOF |
| `ClientWriteTo.DroppingServerExists` | src/pkgsftp/client.go:1041-1044 | Every call has a schedule that cuts it off at once, within the server's contract |
| `ClientWriteTo.ClampedContractExactly` | src/pkgsftp/packet.go:594-604 | A server that clamps replies to a limit keeps the contract `WriteTo` relies on exactly when `maxPacket` is within the limit or the tail from the start offset is |
| `ClientWriteTo.ClampedCutsOff` | src/pkgsftp/client.go:1057-1105 | Otherwise, however long the call goes on, only the first reply is ever written, which is not the whole tail |
| `ClientWriteTo.ClampedNilExactly` | src/pkgsftp/client.go:1033-1038 | Such a call returns nil exactly when one of the at most two requests after the first reply lies at or past the end of the file, and `ErrInternalInconsistency` exactly otherwise |
| `ClientWriteTo.InconsistencyReachable` | src/pkgsftp/client.go:1033-1038 | For every such call that does not see the end there is a clamping server against which it ends with `ErrInternalInconsistency` |
| `ClientWriteTo.ShortReplyStops` | src/pkgsftp/client.go:1021-1109 | At any turn of a call, whatever the server answers before and after: a reply shorter than a packet, written at once or parked, is a point past which the call never writes |
| `ClientWriteTo.ShapeTurn` | src/pkgsftp/client.go:1021-1109 | Every turn against a server that sends one to `maxPacket` bytes keeps what is asked for or parked on distinct tiles at or behind the write position, where the sink ends |
| `ClientWriteTo.StrandedForever` | src/pkgsftp/client.go:1021-1109 | Once the write position lies between two tiles nothing more is written, whatever the server answers |
| `ClientWriteTo.PastEnd` | src/pkgsftp/client.go:1109-1113 | Past the end of the file there is nothing to cut off |
| `ClientWriteTo.TakeTurn` | src/pkgsftp/client.go:1039-1108 | One turn keeps the invariant, is the turn function of its inputs, and records no failure a good server and writer cannot cause |
| `ClientWriteTo.Receive` | src/pkgsftp/client.go:1039-1108 | One result of any kind keeps the invariant and brings the loop closer to its end |
| `ClientWriteTo.ReliableServerExists` | src/pkgsftp/client.go:1057-1061 | The assumptions about server and writer can be met together |
| `ClientWriteTo.FillWindow` | src/pkgsftp/client.go:1022-1031 | The read-ahead loop keeps the invariant, changes no reply and no output, ends with the window full, is the fill function of its inputs, and keeps the window narrow where nothing can be parked |
| `ClientWriteTo.OnData` | src/pkgsftp/client.go:1057-1105 | A data reply is parked when early and otherwise written with everything parked behind it; nothing parked is left at the write position, and one more offset is answered |
| `ClientWriteTo.Flush` | src/pkgsftp/client.go:1079-1098 | Writing out parked replies keeps the invariant and stops only where nothing is parked or the writer failed |
| `ClientWriteTo.StatusStep` | src/pkgsftp/client.go:1053-1056 | A status reply keeps the invariant; the recorded error is the one with the lowest offset |
| `ClientWriteTo.NeverInconsistent` | src/pkgsftp/client.go:1033-1038 | With no error and nothing in flight, nothing is parked |
| `ClientWriteTo.Finished` | src/pkgsftp/client.go:1109-1113 | When the loop ends on the server's EOF the writer has the whole tail and nothing is parked |
| `ClientWrites.File.Write` | src/pkgsftp/client.go:1134-1194 | The packets sent are a prefix of the buffer's tiling from `f.offset`, and their number is the function of the results and the window limit that `SentExactly` gives in closed form; the error is that of the last result that was no status, and without one the first status error; it is nil exactly when every packet sent was acknowledged OK, and then all tiles were sent, and applied in any order to any file they amount to one write of the buffer (exactly unless it is empty and lies beyond the end); an error leaves the offset and returns 0; the window never exceeds `maxConcurrentRequests` |
| `ClientWrites.ReplyAdds` | src/pkgsftp/client.go:1167-1184 | One more result changes that error as the loop does: a status only when there was none before, any other result always |
| `ClientWrites.File.ReadFrom` | src/pkgsftp/client.go:1203-1265 | For every reader and reply schedule the packets sent are those of the reader's successive reads, in place; how many are sent and which error is returned are functions of the reader, the results and the window limit; all are sent if every status is OK, nothing is left in flight, and the offset moves only on a nil error |
| `ClientWrites.SentExactly` | src/pkgsftp/client.go:1212-1259 | If result t is the first that is not an OK status, exactly `min(reads, t + min(t+1, maxConcurrentRequests))` packets are sent |
| `ClientWrites.StatusRecordedExactly` | src/pkgsftp/client.go:1240-1252 | When only statuses come back, the first status error, at turn t, is returned exactly when `t + min(t+1, maxConcurrentRequests)` is less than the number of reads; otherwise it is ignored and the reader's own error counts |
| `ClientWrites.LateErrorIgnored` | src/pkgsftp/client.go:1240-1252 | For every reader that ends with EOF: an error status for the last packet goes unnoticed and the call returns nil |
| `ClientWrites.EofStatusCutsOff` | src/pkgsftp/client.go:1254-1256 | For every reader of two or more reads: an EOF status for the first packet ends the transfer after that packet with a nil error |
| `ClientWrites.NilHonestExactly` | src/pkgsftp/client.go:1203-1265 | A nil error means that every packet sent was acknowledged, for all status schedules, exactly when the very first read reports an error other than EOF (and then there is no nil error) |
| `ClientWrites.File.ReadAhead` | src/pkgsftp/client.go:1213-1230 | Reads and sends until the window is full or the reader reports an error, whose data is still sent |
| `ClientWrites.StreamTiled` | src/pkgsftp/client.go:1212-1228 | Those packets are contiguous from the start offset and their data put together is the reader's stream |
| `ClientWrites.Reads` | src/pkgsftp/client.go:1213-1216 | Reading stops at the first read that reports an error, and that read's data is still sent |
| `MemStore.Splice` | src/pkgsftp/request-example.go:296-310 | One write seen from outside: length is the larger of the two ends, a gap reads as zero, every other byte stays |
| `MemStore.MemFile.WriteAt` | src/pkgsftp/request-example.go:296-310 | The grow-then-copy code makes the content the splice of the old one |
| `MemStore.MemFile.Truncate` | src/pkgsftp/request-example.go:312-322 | Cuts or zero-extends to the given size and keeps all other bytes |
| `MemStore.AppliedBytes` | src/pkgsftp/request-example.go:296-310 | What any sequence of pieces of one buffer leaves behind depends only on which bytes some piece covers |
| `MemStore.TilesCover` | src/pkgsftp/client.go:1146-1160 | The tiles are non-empty pieces of the buffer and together cover it |
| `ClientWrites.TilesWriteWhole` | src/pkgsftp/packet-manager.go:118-134 | The tiles of a buffer, in whatever order parallel workers apply them, amount to one write |
| `MemStore.AnyOrderIsOneWrite` | src/pkgsftp/packet-manager.go:118-134 | Write packets applied in any order by parallel workers leave the same content as one write of the whole buffer, exactly when the buffer is non-empty or lies within the file |
| `Multiplexer.StepKeepsInv` | src/pkgsftp/conn.go:78-146 | Every atomic step of dispatchers, receive loop and broadcast keeps the accounting of results |
| `Multiplexer.RunKeepsInv` | src/pkgsftp/conn.go:68-146 | Every run from a state that satisfies the invariant ends in one |
| `Multiplexer.RepliesReachTheirRequests` | src/pkgsftp/conn.go:78-105 | In every run the replies handed on are those received for outstanding ids, each once and in order, and each goes to the request with the id that it carries |
| `Multiplexer.DeliversToOne` | src/pkgsftp/conn.go:88-104 | In every run, handing a reply on counts one result for that request, on its own call's channel, and changes no other request or call |
| `Multiplexer.NeverBlocks` | src/pkgsftp/client.go:882-907 | In every run, whoever posts a result finds room: at most max + 1 results are outstanding on a call's channel, for `sendPacket` (capacity 2) and for File calls alike |
| `Multiplexer.AtMostTwo` | src/pkgsftp/conn.go:114-146 | No request gets a third result; a second one goes only to the request that was being dispatched when the broadcast took its snapshot |
| `Multiplexer.EveryoneAnswered` | src/pkgsftp/conn.go:134-146 | Once the receive loop has stopped and no dispatch is under way, every request has had one or two results |
| `Multiplexer.ShutdownProceeds` | src/pkgsftp/conn.go:68-146 | After the shutdown has begun, while some request is unanswered somebody can take the next step |
| `Multiplexer.ShutdownEnds` | src/pkgsftp/conn.go:68-146 | From every reachable state, however the goroutines are scheduled, the connection takes boundedly many steps other than new calls, dispatches and receives by callers; when none is left it has shut down and every request has had one or two results |
| `Multiplexer.TwoResultsHappen` | src/pkgsftp/conn.go:121-146 | A run in which a request gets two results and fills the channel: the extra slot is needed |
| `Responses.AnswersWithId` | src/pkgsftp/server.go:175-417 | Both servers give every accepted packet a response, and it carries the request's id |
| `Responses.AnsweredExactly` | src/pkgsftp/server.go:205-417 | For either server and every request: the answer is the DATA, NAME, ATTRS, HANDLE or EXTENDED_REPLY it has for that request exactly when the handle is known and the call succeeded (a READ also at the end of the file with at least one byte), and otherwise a status |
| `Responses.HandlerServerExactly` | src/pkgsftp/request-server.go:180-250 | The same for the request server, where the method of the handle decides between DATA and NAME |
| `Responses.ReadOnlyExactly` | src/pkgsftp/server.go:175-203 | Read-only mode refuses exactly the requests that can change the file system, except a hard link and an open for reading that creates or truncates, which it lets through; refused ones get a status |
| `Responses.LegalExactly` | src/pkgsftp/server.go:175-417 | Whatever the world does, a server's answer is of a kind section 7 of the draft allows exactly when it is the file-system server or the handle's method fits the packet |
| `Responses.RequestServerLegalExactly` | src/pkgsftp/request-server.go:180-250 | The request server's answer is of an allowed kind, whatever the handlers do, exactly when the handle's method fits the packet |
| `PacketManager.SortAppended` | src/pkgsftp/packet-manager.go:86-90 | Sorting a sorted queue with one packet appended puts that packet in its place |
| `PacketManager.Controller.MaybeSendPackets` | src/pkgsftp/packet-manager.go:173-202 | Sends and pops matching heads until they differ or a queue is empty |
| `PacketManager.Controller.Handle` | src/pkgsftp/packet-manager.go:154-170 | One turn of the select loop: append, sort, send what is ready |
| `PacketManager.OrderRestored` | src/pkgsftp/packet-manager.go:154-202 | Whatever way requests and responses interleave, even a response before its request, the packets sent are numbered 1, 2, 3, ... without gap or repeat |
| `PacketManager.OrderExactly` | src/pkgsftp/packet-manager.go:154-202 | That holds under every schedule exactly when the requests reach the controller numbered in arrival order |
| `PacketManager.AllSent` | src/pkgsftp/packet-manager.go:173-202 | When every request received has its response received, both queues are empty |
| `PacketManager.QueuesEmpty` | src/pkgsftp/packet-manager.go:154-202 | The same for any sequence of controller events |
| `Allocator.PageAllocator.GetPage` | src/pkgsftp/allocator.go:25-49 | Hands out the last free page or a new one and enters it under the order id |
| `Allocator.PageAllocator.ReleasePages` | src/pkgsftp/allocator.go:52-60 | Moves the pages of an order id back to the free list and drops its entry |
| `Allocator.PageAllocator.Free` | src/pkgsftp/allocator.go:64-70 | Empties both collections |
| `Allocator.PageAllocator.CountUsedPages` | src/pkgsftp/allocator.go:72-81 | The sum over all entries is the number of distinct pages in use |
| `Allocator.AfterGet` | src/pkgsftp/allocator.go:25-49 | Exactly one page changes hands, it was in nobody's use and is now in that order id's only |
| `Allocator.PagesConserved` | src/pkgsftp/allocator.go:25-60 | After any sequence of calls all pages are distinct, each is free or in exactly one entry, and as many were created as were ever in use at once |
| `ServerRuns.StepKeepsInv` | src/pkgsftp/packet-manager.go:94-202 | Every step of the receive loop, dispatcher, workers, controller and allocator keeps the invariant of the whole server |
| `ServerRuns.RunKeepsInv` | src/pkgsftp/packet-manager.go:94-202 | Every run from a state that satisfies the invariant ends in one |
| `ServerRuns.ArrivedInOrder` | src/pkgsftp/server.go:444-468 | In every run the packets queued are what `makePacket` makes of the messages received, each once and in order |
| `ServerRuns.ResponsesInOrder` | src/pkgsftp/packet-manager.go:173-202 | In every run of either server the k-th response on the wire carries the id of the k-th message received |
| `ServerRuns.AnsweredOnce` | src/pkgsftp/request-server.go:180-250 | In every run each message received and answered has exactly one response, with its id, and there are no others |
| `ServerRuns.CloseBarrier` | src/pkgsftp/packet-manager.go:118-149 | In every run, a close message that has left the dispatcher's queue finds every message received before it answered and counted off |
| `ServerRuns.CommandsInOrder` | src/pkgsftp/packet-manager.go:124-148 | In every run, of two messages received that are neither reads nor writes the later starts only after the earlier has finished |
| `ServerRuns.PagesSafe` | src/pkgsftp/packet-manager.go:44-55 | In every run with the allocator on, the page a request was read into (under the peeked order id) and the page its reply is built in stay out of the free list and of every other entry until the response has been sent; afterwards the entry is gone |
| `ServerRuns.NeverStuck` | src/pkgsftp/packet-manager.go:115-170 | With the channel capacities as they are, in every reachable state with something left to send some goroutine can go on |
| `ServerRuns.EverythingAnswered` | src/pkgsftp/packet-manager.go:94-202 | From every reachable state before the controller stops, however the goroutines are scheduled, the server comes to rest after boundedly many steps, and then every message received has been answered and sent, in order and with its own id, and both queues are empty |
| `ServerRuns.StoppedExactly` | src/pkgsftp/packet-manager.go:99-110 | A controller stopped by `fini` has sent every response exactly when both of its channels were empty |
| `ServerRuns.ResponseLost` | src/pkgsftp/packet-manager.go:99-110 | A run in which `fini` fires while a response is still in the channel, which is then never sent |
| `Wire.Get32OfPut` | src/pkgsftp/packet.go:29-86 | A 32-bit number is read back and the rest is left |
| `Wire.Get64OfPut` | src/pkgsftp/packet.go:33-101 | The same for 64 bits |
| `Wire.GetStringOfPut` | src/pkgsftp/packet.go:37-117 | The same for a length-prefixed string |
| `Wire.CutString` | src/pkgsftp/packet.go:108-117 | A string cut short at any byte is refused |
| `Wire.Put32Value` | src/pkgsftp/packet.go:29-31 | The four bytes written for a number stand for it most significant byte first |
| `Wire.Put64Value` | src/pkgsftp/packet.go:33-35 | The same for eight bytes |
| `Wire.Get32Value` | src/pkgsftp/packet.go:74-86 | From any buffer of at least four bytes, the big-endian number in its first four is read; a shorter one is refused |
| `Wire.Get64Value` | src/pkgsftp/packet.go:88-101 | The same for eight bytes |
| `Wire.GetStringValue` | src/pkgsftp/packet.go:103-117 | From any buffer, the string is the bytes behind the big-endian length, and is refused when the buffer ends before it |
| `Wire.LaidOutExactly` | src/pkgsftp/packet.go:29-39 | A buffer has the given fields by position, to its end, exactly when it is what the marshalling functions write for them |
| `Packets.RoundTrip` | src/pkgsftp/packet-typing.go:84-136 | For every request packet a client can build, with any extension list and for the twice-parsed extended packets, `makePacket` on its marshalled bytes recovers the packet |
| `Packets.LayoutExactly` | src/pkgsftp/packet.go:173-1038 | For every request a client can build, the bytes sent are exactly those with the type of the draft first and the fields of the draft after it, by position |
| `Packets.TypeExactly` | src/pkgsftp/sftp.go:12-38 | Which request has which type code |
| `Packets.ExtensionsRoundTrip` | src/pkgsftp/packet.go:198-237 | Extension pairs of an INIT packet are recovered for any number of them |
| `Packets.UnmarshalCut` | src/pkgsftp/packet.go:255-1038 | What `UnmarshalBinary` makes of a packet other than INIT cut at any byte: an error up to the fixed part, then the packet with the attribute tail cut |
| `Packets.InitCutExactly` | src/pkgsftp/packet.go:214-237 | An INIT packet cut at any byte is accepted exactly when the cut falls behind a whole extension, as the packet with the extensions so far, and is refused as too short anywhere else |
| `Packets.TruncationRefused` | src/pkgsftp/packet-typing.go:84-136 | Any packet that lost bytes before the end of its fixed part (for INIT the version) is refused |
| `Framing.RecvFrame` | src/pkgsftp/packet.go:142-170 | One framed message is received back exactly when it has 1 to 262144 bytes; a longer one is refused, an empty one makes the receiver index past the end |
| `Framing.RecvCut` | src/pkgsftp/packet.go:142-170 | A message cut short is reported as an unexpected end, except that a stream ending right after the length header gives `io.EOF` |
| `Framing.RecvAll` | src/pkgsftp/packet.go:142-170 | The receive loop splits the stream |
| `Framing.StreamRoundTrip` | src/pkgsftp/packet.go:120-170 | Any sequence of framed messages is split back into the same sequence |
| `InPlace.AppendZeros` | src/pkgsftp/packet.go:843-850 | Appending spare bytes stays in the same buffer exactly when the capacity allows it |
| `InPlace.CopyUp` | src/pkgsftp/packet.go:120-140 | The overlapping copy moves the old bytes |
| `InPlace.MarshalData` | src/pkgsftp/packet.go:843-850 | Marshalling a data packet inside its own buffer gives the bytes of one built fresh |
| `InPlace.SendPacket` | src/pkgsftp/packet.go:120-140 | Sliding the packet up for the length header gives the frame of the old bytes |
| `InPlace.GetDataSlice` | src/pkgsftp/packet.go:594-604 | The length is clamped to 32 KiB and the capacity leaves 13 spare bytes, or a whole page |
| `InPlace.ServeRead` | src/pkgsftp/packet.go:594-604 | For every requested length and every amount read, the frame on the wire equals the one built fresh, which by position is the length, 103, the id and the data with its length, and no append leaves the buffer |
| `Attributes.StatRoundTrip` | src/pkgsftp/attrs.go:100-174 | For every combination of flags, decoding an attribute block gives the fields that were sent and leaves exactly what follows |
| `Attributes.StatLayoutExactly` | src/pkgsftp/attrs.go:117-153 | For every combination of flags, the attribute block is exactly the bytes with the fields of section 5 of the draft by position |
| `Directory.EntryRoundTrip` | src/pkgsftp/packet.go:489-500 | One NAME entry is read back with its attributes and the rest is left |
| `Directory.EntriesRoundTrip` | src/pkgsftp/packet.go:504-518 | A NAME reply with any number of entries decodes to their names and attributes, without `.` and `..` |
| `Directory.DecodeEntries` | src/pkgsftp/client.go:260-277 | The client's decoding loop computes that list |
| `Directory.DirRequest.Filelist` | src/pkgsftp/request.go:306-343 | The next page starts where the last ended, is non-empty until the end, and then EOF comes |
| `Directory.ReplyRoundTrip` | src/pkgsftp/client.go:256-277 | A page as a NAME reply is decoded back by the client |
| `Directory.ReplyLayoutExactly` | src/pkgsftp/packet.go:489-518 | The body of a NAME reply is exactly the bytes with the entries' own names, sizes, owners, modes and times by position |
| `Directory.ListedShows` | src/pkgsftp/client.go:260-277 | The decoded list shows, in order, exactly the entries not called `.` or `..`, each with its own name, size, mode, times and owner |
| `Directory.ReadDir` | src/pkgsftp/client.go:247-289 | For any listing and any batch size of at least 1 the client loop ends with every entry but `.` and `..` exactly once and in order, each with its own name and attributes |
| `ScanPipeline.RoutedExactly` | src/ssftp/clamav.go:69-132 | Exactly which scanner answers hold a file back, quarantine it or pass it on |
| `ScanPipeline.CheckScavengedFilesUploadState` | src/ssftp/filewatcher.go:148-195 | The batch is the files not open for upload or idle for the time limit, in order; it is refused when empty while uploads are open |
| `ScanPipeline.BatchExactly` | src/ssftp/filewatcher.go:148-195 | The batch holds, in order, exactly the files that nobody has open or that have been idle for 120 minutes; one whose idle time cannot be read is left out |
| `ScanPipeline.FileSystem.MoveFileBetweenDrives` | src/ssftp/filewatcher.go:389-429 | The disk after a move with any of its calls failing; success means the content moved whole and nothing else changed |
| `ScanPipeline.MoveKeepsExactly` | src/ssftp/filewatcher.go:389-429 | Whichever call fails, the content is whole at the source or the destination afterwards, exactly when the two paths differ |
| `ScanPipeline.MoveDestroysNothingExactly` | src/ssftp/filewatcher.go:389-429 | Whichever call fails, no content of any path is destroyed, exactly when source and destination differ and nothing was at the destination (or both files were empty) |
| `ScanPipeline.Overwrites` | src/ssftp/filewatcher.go:408-412 | A different file at the destination is gone after a move in which nothing fails |
| `ScanPipeline.StepKeepsInv` | src/ssftp/overlord.go:58-96 | Every rendezvous of scavenger, notifier, overlord and scanner keeps the invariant |
| `ScanPipeline.OneFileAtATime` | src/ssftp/filewatcher.go:252-275 | In every run at most one file is between hand-off and ScanDone, the one the notifier waits for |
| `ScanPipeline.ScannedOnceInOrder` | src/ssftp/filewatcher.go:252-275 | In every run the files are scanned once each, in the order handed over, all of them before the batch is reported done |
| `ScanPipeline.NeverStuck` | src/ssftp/overlord.go:58-96 | In every reachable state some goroutine can go on, unless the scavenger is looking for a new batch |
| `ScanPipeline.BatchEnds` | src/ssftp/filewatcher.go:252-275 | A batch ends after five steps a file and one more, whatever the schedule, with every file scanned |
| `ScanPipeline.NothingLost` | src/ssftp/filewatcher.go:354-429 | Over a whole run, with any failures and any scan results, the content of every file present at the start is whole at its path or at the destination a scan of it chose, as long as no other file is moved onto either and no upload reuses them |
| `ScanPipeline.UploadKept` | src/ssftp/filewatcher.go:354-429 | The same for the content of every upload made during the run whose name is not used again |
| `ScanPipeline.StagedUploadKept` | src/ssftp/filewatcher.go:354-429 | With the three directories apart and everything uploaded and handed over below staging, an upload whose name is not used again is kept if no other file handed over shares a destination with it |
| `ScanPipeline.UploadKeptExactly` | src/ssftp/filewatcher.go:354-429 | Over all runs that hand over files of a given set: such an upload is kept in every one exactly when no other file of the set shares a destination with it |
| `ScanPipeline.SharedDestinationLoses` | src/ssftp/filewatcher.go:358-386 | For any two files below staging that share a destination: a run that uploads each under its own name, with nothing failing, after which the content of the first is nowhere |
| `ScanPipeline.NamesThatMeet` | src/ssftp/filewatcher.go:361-362 | Under every configuration whose clean path does not contain the staging path there are such files: a copy of the staging path below staging, and a copy of the clean path beside it |
| `ScanPipeline.LosingRun` | src/ssftp/filewatcher.go:354-429 | Such a run with directories written out |
| `ScanPipeline.OnlyScannedMoves` | src/ssftp/overlord.go:70-92 | In every run in which no file is uploaded again between its scan and its move, with the scanner a function of the content: whatever newly lies outside staging is the very content that one of the run's scans was made of and sent there, or, where a copy failed, its beginning; as long as no copy fails, the scanner finds no virus in anything new in the clean directory |
| `ScanPipeline.LateUploadMovesUnscanned` | src/ssftp/overlord.go:70-92 | The condition on uploads is needed: for any content in which a virus is found and any other in which none is, a run without failures in which the first replaces the second between scan and move, lies in the clean directory, and breaks both statements |
| `ScanPipeline.FailedCopyUnscanned` | src/ssftp/filewatcher.go:414-421 | Whole copies are needed too: a copy that fails after n bytes leaves a file in the clean directory that was never scanned, though nothing was uploaded in between |
| `ScanPipeline.DirectoriesClear` | src/ssftp/filewatcher.go:354-386 | With the three directories apart and all files below staging, no other file is moved onto a file in staging or its destinations exactly when none shares a destination with it; uploads to staging under another name touch neither |
| `ScanPipeline.DestinationOf` | src/ssftp/filewatcher.go:354-386 | For every path below staging, the destination is the new directory with the unchanged rest exactly when the staging path does not occur in the rest |
| `Putty.Reader.ReadHeader` | src/putty/putty.go:156-186 | Reads a header as specified by `Header` and leaves the rest |
| `Putty.Reader.ReadBody` | src/putty/putty.go:189-216 | Reads a line as specified by `Body`, unreading a byte that is not a newline |
| `Putty.Reader.ReadBlob` | src/putty/putty.go:219-235 | Reads the given number of lines, each of a valid length |
| `Putty.Reader.DecodeFields` | src/putty/putty.go:238-344 | The field loop accepts and refuses what `Fields` does, with the same key or error |
| `Putty.HeaderExactly` | src/putty/putty.go:156-186 | A header is read exactly when the input starts with at most 39 characters free of colon and newline, then a colon and a space |
| `Putty.BodyExactly` | src/putty/putty.go:189-216 | A line is exactly the text up to the next newline character; one or two of these, or the end of the file, follow |
| `Putty.EmptyLineSwallowed` | src/putty/putty.go:189-216 | An empty line ended by LF or CR is taken as the end of the line before it, so blob lines ended that way must not be empty |
| `Putty.KeyRoundTrip` | src/putty/putty.go:156-344 | Every well-formed version 2 key printed with LF, CR or CRLF, with or without a final newline, is decoded to the same key; with CRLF empty blob lines are read back too |
| `Putty.AcceptedExactly` | src/putty/putty.go:238-344 | A text is decoded to a key exactly when it holds the six fields of a version 2 file in order, each under its header, with one of six algorithms, one of two encryptions, and fewer than 5461 base64 lines, as many as announced, that decode to the key's blobs |
| `Putty.HeadersExactly` | src/putty/putty.go:256-268 | A header is let through exactly when it is the one that is due, the first one only for version 2 |

## Left out

Behaviour in which the code differs from its documentation, kept as the code has it:

- The count that `WriteTo` returns omits what the flush loop wrote; it is right for every schedule exactly when `CanPark` does not hold.
- A status error that reaches `ReadFrom` after the reader's end is ignored, and an EOF status ends the transfer with a nil error; `StatusRecordedExactly` and `NilHonestExactly` say exactly when.
- A connection error that happens to be `io.EOF` is taken for the end of the file by `ReadAt` and `WriteTo`; their contracts say what such a call returns and that only calls past the end are immune.
- An empty `Write` beyond the end of the file sends no packet, while a write of nothing through `memFile.WriteAt` pads the file.
- A stream that ends right after a length header looks like one that has ended, because `io.ReadFull` then returns `io.EOF`.
- The destination of a file replaces every occurrence of the staging path, not only the leading one, so two different files below staging can have the same destination and the later one overwrites the earlier.
- A file uploaded again between its scan and its move is moved without another scan.
- With `MaxPacketUnchecked` above the server's limit of 32768 bytes, `WriteTo` writes only the first reply of a longer tail and returns nil or `ErrInternalInconsistency`, depending on whether the next requests see the end of the file.
- A move overwrites whatever is at the destination, and a move onto the source itself loses it.
- Read-only mode lets a hard link through, and an open for reading that creates or truncates.
- A frame of length zero makes `recvPacket` index past the end of its buffer.
- The close of the packet manager can stop the controller before it has received every response.
- A scan status other than `OK` and `FOUND` sends the file to the clean directory; only a failed scan call keeps it in staging.

Not modelled:

- SSH transport, authentication, host keys, TCP listening and deadlines.
- Real file-system calls, symlinks, statvfs, `runLs` output, the OS-specific files; they are abstract contents, parameters or free choices.
- Path cleaning and the jail path; `path.Base` in `ReadDir` is the identity on the names of a listing.
- Multi-flag SETSTAT handling, `match.go`, rename, link and remove of the in-memory file system.
- Failed opens in the request server, which leave the request registered; handle tables are a parameter of the answers.
- Cryptography and reflection in `src/putty`, the generic `marshal` on `interface{}`.
- Configuration, logging, webhook, downloader and uploader clients, sleeps and clocks.
- Wrap-around of request ids, order ids and 64-bit offsets, and negative offsets in `ReadAt`; ids are handed out by a counter that never repeats.
- The stat call at the start of `WriteTo`: its size is a parameter, its failure an early return.
- The codes and texts inside status packets, beyond whether they are OK, EOF or another error.
- The order in which the rwChan hands packets to workers: any waiting packet may be next.
- Packets that `makePacket` refuses: the file-system server's loop goes on with a nil packet after one, and no run here contains one.
- A reply of another packet type to `ReadAt` or `WriteTo` is treated like a result with an error of its own, which leaves its request entry in place; either way the call ends with an error.
