# Verification of the DB_server core

A Dafny 4.11 model of the server's concurrent core, with its properties proved. `dafny verify dfyconfig.toml` checks it.
The code that changes state step by step is modelled by classes and methods over arrays and fields, proved against
functions; whole runs, in which the kernel, the peer, the scheduler and the application are adversaries, are lemmas about
those functions.

## What is modelled

**ZIP64 streaming** (`Crc32.dfy`, `ZipFormat.dfy`, `ZipPump.dfy`, `ZipClient.dfy`). The table-driven checksum against
polynomial division; the archive layout against an independent reader that starts at the end record; the pump itself,
byte arrays, loops and all, against every script of partial writes and short reads; and the client at the other end,
which reads the response and then the archive. Layout follows sections 4.3.7, 4.3.9, 4.3.12, 4.3.14 to 4.3.16 and 4.5.3
of PKWARE APPNOTE.TXT, the checksum section 8 of RFC 1952.

**Connections** (`HttpMessage.dfy`, `Exchange.dfy`, `Client.dfy`). Responses as octets and a reader by sections 4, 5 and
6.3 of RFC 9112. `Exchange` is the protocol of one connection as functions: reading in fragments, rendering, sending with
parks and resumes, the deferred decision to close. `Talk` tells, from the bytes that were read alone and without any
socket, what ought to be said; wire refinement relates the two. `Client` is the client object with its one 32 KiB buffer,
and every method of it is proved to follow the protocol.

**Upload pool** (`UploadPool.dfy`, `UploadQueue.dfy`). Workers, listener and the thread that shuts them down as
interleaved steps around a mutex and a condition variable; and the circular array as the sequence it stands for.

**Dispatcher and operators** (`Dispatcher.dfy`, `Mailbox.dfy`, `Operator.dfy`, `OperatorEvents.dfy`, `Lifecycle.dfy`).
Placement of connections and its saturation, the mailbox count that two threads update without a lock, the slot table with
its timeouts, the way of an event from the table to the client object and back, and the start-up and teardown of n
operators.

**Upload pump** (`UploadPump.dfy`, `ClaimedConnections.dfy`). The body transfer with its ticket, clock and answers,
for the one-shot and the resumable upload alike, and the drain after a refusal. `ClaimedConnections` puts it together with
the connection before and after it.

**Configuration** (`EnvConfig.dfy`). The five validators and the five resolvers, with their own bounds, over a model of
`strtol`, and the listen specifications.

`Kernel.dfy` holds the adversary: a script of answers to the system calls of one connection and the bytes the peer has yet
to send. A script that runs out stands for a run observed in the middle of a call, so every statement holds at every
moment. `Bytes.dfy`, `Text.dfy`, `Option.dfy` and `Counting.dfy` are shared vocabulary.

## Where code and documentation disagree

The model follows the code.

- `folder_zip_pump.c:7-11` announces 32-bit ZIP and a 4 GiB limit; the code always writes ZIP64 records.
- `response_writer.h` gives another order of the fields and says that only 404 and 500 carry error bodies; the code sends
  Content-Length, Connection, Content-Type, then the extra headers, and has bodies for 400 and 413 too. A 408 from the
  upload pump goes out as 500.
- `client.h` calls `last_activity` milliseconds; it is set from `time(NULL)`, in seconds, which is what the timeouts need.
- `client.c:139-141` zeroes the receive count before a parked response is left to drain; the path for rejected requests
  (`client.c:100-110`) does not (`Exchange.StaleWhileDraining`), which is harmless because the connection then closes.
- `worker.c:447-452` means to mark the worker full when all operators are FULL, but is skipped in just that case
  (`Dispatcher.Worker.LeastLoaded` says when it does).
- `operator.c:301-319` means a stop request to stay; an event that removes a client of the operator, or an admission that was
  under way, overwrites it (`Lifecycle.ShutdownStaysExactly`).
- `upload_pump.c:64-71` has the rejected body drained so that the peer gets to see the refusal; on an operator the drain can
  overwrite it and its bytes go out instead (`ClaimedConnections.RefusalOnTheWireExactly`).
- `response_writer.c:94-135` announces what is decided after a reply in its Connection field; an extra header of the
  application can contradict it (`Exchange.HeaderMatchesDecision`).
- `core.c:254-257` says that stopping the upload pool shuts active upload sockets; only queued descriptors are closed, and
  the joins wait for the active ones.
- `operator.c:411` reports a rejected descriptor as closed; it is not. `Operator.rejected` is where it goes in the model.

## Model

| member | source | states |
|---|---|---|
| `Crc32.CrcIsPolynomialRemainder` | app/src/core/worker/operator/client/folder_zip_pump.c:50-72 | The checksum of a byte string, as polynomials over GF(2), is the remainder of dividing its bits (reflected, the first 32 complemented, 32 zeros appended) by the CRC-32 generator, complemented: section 8 of RFC 1952. |
| `Crc32.DivisionSound` | app/src/core/worker/operator/client/folder_zip_pump.c:50-61 | The bit-serial division used as the reference yields a quotient and a remainder shorter than the generator that recombine to the dividend. |
| `Crc32.DivisionUnique` | app/src/core/worker/operator/client/folder_zip_pump.c:50-61 | No other quotient and short remainder recombine to the same dividend, so the reference is division and not merely something like it. |
| `Crc32.TableStep` | app/src/core/worker/operator/client/folder_zip_pump.c:64-72 | One look-up in the table with the low byte, combined with the shifted rest, equals eight single-bit steps of the register. |
| `Crc32.SlicingIndependent` | app/src/core/worker/operator/client/folder_zip_pump.c:64-72 | Continuing the checksum over any slicing of the data, empty slices included, gives the checksum of the whole, so it does not depend on how much each read returns. |
| `Crc32.CrcTable.constructor` | app/src/core/worker/operator/client/folder_zip_pump.c:50-61 | The 256 entries filled by the nested loop are eight single-bit steps of their own index. |
| `Crc32.CrcTable.Continue` | app/src/core/worker/operator/client/folder_zip_pump.c:64-72 | The byte loop over the table computes the bit-by-bit update, from any earlier checksum. |
| `ZipFormat.ZipRoundTrip` | app/src/core/worker/operator/client/folder_zip_pump.c:208-383 | A reader that finds the end record, follows the ZIP64 locator, the ZIP64 record, the central directory and each 64-bit local offset, and checks signatures, sizes and CRCs, recovers exactly the names and contents in order, if and only if every name is shorter than 65536 bytes. For any number of files of any size within 64 bits. |
| `ZipFormat.ContentLengthExact` | app/src/core/worker/operator/client/folder_zip_pump.c:168-180 | The length computed before the first byte is sent is the length of the archive, and taking it modulo 2^64 is harmless exactly while the archive is shorter than that. |
| `Bytes.RecordRoundTrip` | app/src/core/worker/operator/client/folder_zip_pump.c:74-92 | Little-endian fields laid one after the other are read back with their values, whatever follows them. |
| `ZipPump.Le64` | app/src/core/worker/operator/client/folder_zip_pump.c:86-92 | Writing the eight bytes in a loop appends the little-endian form of the value to the record built so far. |
| `ZipPump.FolderZipPump.LocalHeaderRecord` | app/src/core/worker/operator/client/folder_zip_pump.c:225-236 | The 30 bytes written into the array are the encoded local header, with the name length cut to 16 bits. |
| `ZipPump.FolderZipPump.LocalExtraRecord` | app/src/core/worker/operator/client/folder_zip_pump.c:239-243 | The 20 bytes are the encoded local ZIP64 extra field with both sizes. |
| `ZipPump.FolderZipPump.DescriptorRecord` | app/src/core/worker/operator/client/folder_zip_pump.c:291-295 | The 24 bytes are the encoded ZIP64 data descriptor. |
| `ZipPump.FolderZipPump.CentralHeaderRecord` | app/src/core/worker/operator/client/folder_zip_pump.c:317-334 | The 46 bytes are the encoded central directory header. |
| `ZipPump.FolderZipPump.CentralExtraRecord` | app/src/core/worker/operator/client/folder_zip_pump.c:336-341 | The 28 bytes are the encoded central ZIP64 extra field with sizes and offset. |
| `ZipPump.FolderZipPump.Z64RecordRecord` | app/src/core/worker/operator/client/folder_zip_pump.c:352-362 | The 56 bytes are the encoded ZIP64 end record. |
| `ZipPump.FolderZipPump.Z64LocatorRecord` | app/src/core/worker/operator/client/folder_zip_pump.c:364-368 | The 20 bytes are the encoded ZIP64 locator. |
| `ZipPump.FolderZipPump.EocdRecord` | app/src/core/worker/operator/client/folder_zip_pump.c:370-378 | The 22 bytes are the encoded classic end record, with its counts and size capped where they do not fit. |
| `Kernel.PushAll` | app/src/core/worker/operator/client/folder_zip_pump.c:96-124 | A transfer never sends more than it has, is done exactly when it has sent it all, and waits only when the script has run out. |
| `Kernel.PushStops` | app/src/core/worker/operator/client/folder_zip_pump.c:96-124 | A transfer is given up only when the kernel has refused the write or the wait that it asked for last; an interruption or a full socket does not end it. |
| `Exchange.WriteLoopsAgree` | app/src/core/worker/operator/client/folder_zip_pump.c:96-124 | The write loop of the pump and the send loop of the response writer (`response_writer.c:278-325`), two separate loops in the code, do the same to a connection no reactor owns: same bytes, same answers used up, same ending. |
| `ZipPump.FolderZipPump.WriteAll` | app/src/core/worker/operator/client/folder_zip_pump.c:96-124 | Under every script of partial counts, EINTR, EAGAIN and failures the wire gains exactly the prefix the script lets through, and success means all of it. |
| `ZipPump.FolderZipPump.CopyOnce` | app/src/core/worker/operator/client/folder_zip_pump.c:258-280 | One read of at most a buffer: the checksum takes in exactly what was read, the wire a prefix of it, and a file that ends early or cannot be written on ends the copy. |
| `ZipPump.FolderZipPump.CopyFile` | app/src/core/worker/operator/client/folder_zip_pump.c:255-283 | One pass over a file: the wire gains a prefix of its declared bytes, and on success all of them, with the CRC of exactly those bytes; a file shorter than declared fails. |
| `ZipPump.CopyStops` | app/src/core/worker/operator/client/folder_zip_pump.c:255-283 | A copy is given up only when a read, a write or a wait was refused, or the file has come to its end. |
| `ZipPump.FolderZipPump.Measure` | app/src/core/worker/operator/client/folder_zip_pump.c:168-180 | The measuring loop finds the body and directory sizes modulo 2^64. |
| `ZipPump.FolderZipPump.BuildFileName` | app/src/core/worker/operator/client/folder_zip_pump.c:182-194 | The file name is the archive name without quotes, CR and LF, cut to 79 bytes. |
| `ZipPump.HeadFits` | app/src/core/worker/operator/client/folder_zip_pump.c:196-201 | The printed head is always shorter than its 320-byte buffer, so the branch that gives up on it is dead. |
| `ZipPump.FolderZipPump.CloseEntry` | app/src/core/worker/operator/client/folder_zip_pump.c:284-304 | After the data the file is closed, the descriptor sent as one step of the plan, and the checksum and offset are recorded only if that went out whole. |
| `ZipPump.FolderZipPump.SendEntry` | app/src/core/worker/operator/client/folder_zip_pump.c:210-304 | Opening, sending, closing and recording one entry advances the plan by exactly that entry, or stops inside it; what is recorded is the CRC of its data and the true offset of its local header. |
| `ZipPump.FolderZipPump.SendNext` | app/src/core/worker/operator/client/folder_zip_pump.c:210-304 | Entry after entry: the running 64-bit offset with which the next one is recorded is the size of all sections before it. |
| `ZipPump.FolderZipPump.SendCentral` | app/src/core/worker/operator/client/folder_zip_pump.c:307-348 | The directory entry sent is the one for what was recorded, advancing the plan or stopping inside it. |
| `ZipPump.FolderZipPump.SendTrailer` | app/src/core/worker/operator/client/folder_zip_pump.c:350-383 | The three end records are sent as one step of the plan each. |
| `ZipPump.Le16` | app/src/core/worker/operator/client/folder_zip_pump.c:74-78 | Two bytes in little-endian order are appended to the record built so far. |
| `ZipPump.Le32` | app/src/core/worker/operator/client/folder_zip_pump.c:79-85 | Four bytes in little-endian order are appended to the record built so far. |
| `ZipPump.FolderZipPump.SendLocal` | app/src/core/worker/operator/client/folder_zip_pump.c:225-252 | Header, name and extra field are sent in order, as three steps of the plan; a failure closes the file and gives the handle back. |
| `ZipPump.FolderZipPump.SendDescriptor` | app/src/core/worker/operator/client/folder_zip_pump.c:291-300 | The descriptor of the checksum just computed is sent as one step of the plan. |
| `ZipPump.FolderZipPump.OpenFile` | app/src/core/worker/operator/client/folder_zip_pump.c:217-223 | A file that cannot be opened gives the handle back and ends the download there. |
| `ZipPump.FolderZipPump.SendEntries` | app/src/core/worker/operator/client/folder_zip_pump.c:208-304 | All entries are sent in order, each offset recorded is the true position of its local header in the archive. |
| `ZipPump.FolderZipPump.SendDirectory` | app/src/core/worker/operator/client/folder_zip_pump.c:306-348 | The directory replays what was recorded, entry by entry, in order. |
| `ZipPump.FolderZipPump.SendBody` | app/src/core/worker/operator/client/folder_zip_pump.c:208-388 | Entries, directory and end records together are the archive, or a prefix of it. |
| `ZipPump.FolderZipPump.SendStream` | app/src/core/worker/operator/client/folder_zip_pump.c:196-388 | The head and then the archive, or a prefix of the two. |
| `ZipPump.FolderZipPump.PumpArchive` | app/src/core/worker/operator/client/folder_zip_pump.c:163-388 | Once opened, for every kernel script the wire gains precisely a prefix of the announced stream, complete if and only if the end is success, and then with no file short; the handle is released exactly once unless the run is observed inside the call, and every file opened is closed once. |
| `ZipPump.FolderZipPump.Pump` | app/src/core/worker/operator/client/folder_zip_pump.c:147-388 | If the application will not open the folder, its own response goes to the client, the status is that of the send, and no handle is ever released; otherwise the archive is streamed as `PumpArchive` says, and success is reported only with all of it on the wire. |
| `ZipPump.HonestTruncation` | app/src/core/worker/operator/client/folder_zip_pump.c:168-387 | The head and the advertised number of bytes are sent if the download succeeds, and strictly fewer if and only if it does not. |
| `ZipPump.DownloadStops` | app/src/core/worker/operator/client/folder_zip_pump.c:196-388 | A download is broken off only for what the kernel refused last or for a file shorter than its listing, and done only if every file could be opened. |
| `ZipClient.SanitizedIsSafe` | app/src/core/worker/operator/client/folder_zip_pump.c:182-194 | Sanitizing leaves nothing that ends the quoted name or the header line, and leaves a name that had none of that alone. |
| `ZipClient.DownloadRead` | app/src/core/worker/operator/client/folder_zip_pump.c:147-388 | Read by RFC 9112, a whole download is one 200 response with exactly five fields (application/zip, its length, the archive's name to save it under, no caching, close), whose body, read as a ZIP, gives back every file; the name is the archive's own where it can stand in quotes and has at most 79 bytes, and else the first 79 of the bytes that can. Anything short of the announced length reads as incomplete. |
| `ZipClient.Fetch` | app/src/core/worker/operator/client/folder_zip_pump.c:147-388 | The same for the bytes the pump puts on a fresh socket when the application opens the folder: all of it, fields and name included, or visibly nothing, decided by the status the pump reports. |
| `HttpMessage.FieldsRoundTrip` | app/src/core/worker/operator/client/response_writer.c:127-135 | A block of clean field lines is read back field by field, and what follows is untouched. |
| `HttpMessage.MessageRoundTrip` | app/src/core/worker/operator/client/response_writer.c:94-156 | A serialized message is read back with its status, fields and body, and the reader stops exactly at its end, if and only if its fields are clean and announce exactly its body. |
| `HttpMessage.ResponseRoundTrip` | app/src/core/worker/operator/client/response_writer.c:94-156 | What is serialized for a response is read back as that response if and only if its headers are free of CR, LF and ambiguous delimiters, none of them frames the body, and there is no body where the status forbids one (sections 4, 5 and 6.3 of RFC 9112). |
| `HttpMessage.RegisteredReasons` | app/src/core/worker/operator/client/response_writer.c:330-357 | The reason phrases are the registered ones. |
| `HttpMessage.CutMessageIsIncomplete` | app/src/core/worker/operator/client/response_writer.c:94-156 | Cut at any byte, a message is seen to be incomplete and never read as a shorter one. |
| `Exchange.RenderFits` | app/src/core/worker/operator/client/response_writer.c:94-156 | Whatever is handed to the socket fits the 32 KiB buffer, is not empty, and has a valid status. |
| `Exchange.ErrorFramed` | app/src/core/worker/operator/client/response_writer.c:191-241 | Each fixed error message announces exactly its own body and can be read back. |
| `Exchange.ErrorsAsSent` | app/src/core/worker/operator/client/response_writer.c:191-241 | The four fixed messages as they go out, octet for octet, and that any other status is sent as 500. |
| `Exchange.RenderKeeps` | app/src/core/worker/operator/client/response_writer.c:94-156 | A response goes out with its own status and body, the server's fields and then its own headers, all up to the maximum, in order and unchanged, or is replaced by the 500 message exactly if that is longer than 32 KiB. |
| `Exchange.Drive` | app/src/core/worker/operator/client/response_writer.c:278-325 | A send never puts out more than it has, is complete exactly when it has put out all, and parks only for a connection of the reactor. |
| `Exchange.DriveStops` | app/src/core/worker/operator/client/response_writer.c:278-325 | A send parks only where a reactor granted it after a full socket, and fails only for a refused write, wait or registration. |
| `Exchange.WireRefinement` | app/src/core/worker/operator/client/response_writer.c:158-325 | For every peer, every schedule of fragmented reads, partial writes, EINTR, EAGAIN, parks and resumes, and hang-ups and timeouts at any event, up to a claim of the upload gate if there is one: the bytes on the socket are the serialized replies in request order with only the last possibly cut; nothing is owed while listening, when a request is handed to the pump, or after any close the server chose itself; every byte read is read once, none after the exchange that ends the connection. |
| `Exchange.EveryEventHasItsReason` | app/src/core/worker/operator/client/client.c:50-189 | At any moment of any run, for the next event: the read loop goes on exactly through deliveries and interruptions while the request is incomplete; it goes back to waiting only for an empty socket, and closes only for an ended peer, a failed read or a full buffer; a settled request gets what its verdict demands; a parked reply is sent on and leads, once it is out and the descriptor rearmed, to what was decided when it was said. |
| `Exchange.ClosedForAReason` | app/src/core/worker/operator/client/client.c:50-189 | However a run has gone, a closed connection has its reason in what the kernel answered last, in what was read, or in an event from outside. |
| `Exchange.RequestInPieces` | app/src/core/worker/operator/client/client.c:58-164 | A request whose verdict comes with its last byte, delivered over any number of events with empty sockets and interruptions in between: the connection is kept as long as it is incomplete, it is complete at the latest when there have been more events than empty sockets, and then said is what the verdict demands. |
| `Exchange.ServedIsCompleted` | app/src/core/worker/operator/client/client.c:296 | The count that decides a client's timeout is that of the requests completed. |
| `Exchange.ClientReadsFinish` | app/src/core/worker/operator/client/response_writer.c:158-325 | At the end of a connection, that after a claim included, a client reads by RFC 9112 what was said, less the last message if that is cut, and all of it once the server has closed of its own accord. |
| `Exchange.DeferredClose` | app/src/core/worker/operator/client/response_writer.c:252-325 | While a response is parked some of it is unsent, it fits the buffer, the connection belongs to a reactor, and the receive count is zero if and only if the parser did not reject the request; if it did, the connection is going to close. |
| `Exchange.StaleWhileDraining` | app/src/core/worker/operator/client/client.c:100-112 | A run in which a rejected request leaves its byte counted in the buffer while the 400 is parked: the receive count is not always zero. |
| `Exchange.HeaderMatchesDecision` | app/src/core/worker/operator/client/response_writer.c:94-135 | What the Connection fields of a reply announce, all of them and each as a list of options (section 9.6 of RFC 9112), is what is decided after it is sent, if and only if the request left a policy and, where that is to stay, no extra header that is sent says close. Without a policy the reply says close and the connection stays. |
| `Exchange.KeepsItsWord` | app/src/core/worker/operator/client/response_writer.c:158-189 | At every moment of every run at which the last reply is out and the connection listens or has been closed for it, parked and resumed or not: the client was told close if and only if it is closed, exactly for the replies of `HeaderMatchesDecision`. |
| `Exchange.ApplicationSaysClose` | app/src/core/worker/operator/client/response_writer.c:127-135 | A response that can be read back, with a Connection header of the application: the client is told close and the server waits for its next request. |
| `Exchange.ClientReadsReplies` | app/src/core/worker/operator/client/response_writer.c:94-325 | End to end: a client that reads the wire by RFC 9112 gets the replies that were meant, in order, all of them whenever the server listens again or has closed of its own accord. |
| `Exchange.ClientReads` | app/src/core/worker/operator/client/response_writer.c:94-156 | A stream of readable messages cut inside the last is read as all the others. |
| `Exchange.FragmentationInvisible` | app/src/core/worker/operator/client/client.c:58-164 | A request complete only with its last byte is answered alike however the read loop got its fragments. The verdict itself is a function of the bytes so far; what is shown is that the loop accumulates them, not that DB_http parses incrementally without loss. |
| `ClientObject.Client.Print` | app/src/core/worker/operator/client/response_writer.c:109-134 | snprintf into the rest of the buffer: the length of the whole text, the text itself if it fits, and nothing before it touched. |
| `ClientObject.Client.Build` | app/src/core/worker/operator/client/response_writer.c:102-147 | A response is laid out whole if and only if its serialization is at most 32 KiB, through any number of separate prints. |
| `ClientObject.Client.Send` | app/src/core/worker/operator/client/response_writer.c:94-156 | An invalid status sends nothing; a response that fits is driven to the socket from the buffer; one that does not is replaced whole by the 500 message and a close. |
| `ClientObject.Client.SendError` | app/src/core/worker/operator/client/response_writer.c:191-241 | The policy becomes close and the fixed message for the status, or for 500, is driven to the socket. |
| `ClientObject.Client.constructor` | app/include/db_server/core/worker/operator/client/client.h:16-49 | A new client listens with an empty buffer and no policy. |
| `ClientObject.Client.AppendHeaders` | app/src/core/worker/operator/client/response_writer.c:127-135 | Every extra header up to the maximum is laid out in order, if and only if all of them fit. |
| `ClientObject.Client.Park` | app/src/core/worker/operator/client/response_writer.c:252-266 | Parking arms the descriptor for writing and keeps the offset and the total; if that is refused the send state is cleared. |
| `ClientObject.Client.OnFull` | app/src/core/worker/operator/client/response_writer.c:295-317 | A full socket parks a connection of the reactor, and makes any other wait once, failing unless it becomes writable. |
| `ClientObject.Client.Reset` | app/src/core/worker/operator/client/client.c:301-329 | Nothing of the message or of a parked send is left. |
| `ClientObject.Client.Remove` | app/src/core/worker/operator/client/client.c:247-271 | A removed client has no state left for the next connection of its slot. |
| `ClientObject.Client.TrySend` | app/src/core/worker/operator/client/response_writer.c:278-325 | The write loop puts on the wire exactly what the script lets through from the current offset, and leaves the send state clear, parked or failed accordingly. |
| `ClientObject.Client.Reply` | app/src/core/worker/operator/client/client.c:82-161 | The answer to a rejected or complete request leaves the object and its socket where the protocol says; a claimed one is left to the pump. |
| `ClientObject.Client.HandleReady` | app/src/core/worker/operator/client/client.c:50-189 | The read loop, with its one buffer for receiving and sending, follows the protocol step for step, up to where a claimed request is handed to the pump with the headers still in the buffer. |
| `ClientObject.Client.ResumeSend` | app/src/core/worker/operator/client/response_writer.c:158-189 | Resuming sends the rest out of the buffer, rearms, and only then decides to close or listen. |
| `ClientObject.Client.Dispatch` | app/src/core/worker/operator/operator.c:419-456 | An event resumes a parked client and otherwise handles it; failure removes it. |
| `ClientObject.Client.Serve` | app/src/core/worker/operator/operator.c:419-456 | Any run of events on the object is that run of the protocol. |
| `ClientObject.Client.Connect` | app/src/core/worker/operator/operator.c:419-456 | A whole connection on a fresh socket: what the kernel was given satisfies the wire refinement. |
| `UploadPool.NoLostWakeup` | app/src/core/worker/upload_worker.c:181-202 | In every interleaving of dispatch, dequeue, spurious wakeup and shutdown, racing ones included: while a worker sleeps, at least as many workers are awake and about to take the lock as there are queued descriptors (the one being signalled aside), and nobody sleeps after the broadcast. |
| `UploadPool.WorkersStay` | app/src/core/worker/upload_worker.c:181-202 | In every interleaving a worker of a running pool is gone if and only if its parser could not be set up on its first turn, however many uploads it has served. |
| `UploadPool.ServingOnlyAdvances` | app/src/core/worker/upload_worker.c:181-202 | While the pool serves and something is queued, no step of anybody takes a worker further from the head of the queue, until a worker holds it. |
| `UploadPool.ServingNeverStuck` | app/src/core/worker/upload_worker.c:181-202 | With one worker that has been set up, some thread can always take a step that takes the head, brings a worker nearer to it, or lets the listener out of the mutex, so that a fair scheduler serves it. |
| `UploadPool.IdlenessOnlyGrows` | app/src/core/worker/upload_worker.c:183-192 | With nothing queued every step of a worker brings it nearer to sleep: none of them turns in circles. |
| `UploadPool.IdlePoolSettles` | app/src/core/worker/upload_worker.c:183-192 | As long as a worker is awake and the mutex not the listener's, one of them can take such a step. |
| `UploadPool.UncontendedDispatch` | app/src/core/worker/upload_worker.c:259-278 | A dispatch that nobody gets in the way of queues the descriptor and wakes a sleeper, exactly if there is room, and otherwise closes it and leaves all as before. |
| `UploadPool.EveryDescriptorHasOneOwner` | app/src/core/worker/upload_worker.c:181-310 | In every interleaving each open descriptor is in exactly one of queue, one worker, or the listener; none is closed twice; the queue keeps its bound; and the order off the queue is the order onto it. |
| `UploadPool.ShutdownClosesExactly` | app/src/core/worker/upload_worker.c:259-310 | Up to the step that clears the running flag anything may have happened, and after it any schedule is allowed: every descriptor ever accepted is closed once all workers are joined and the listener has returned, if and only if the listener is not at that step between its unlocked test of the flag and the mutex. For every depth the pool can be given, that is, from 1 up. |
| `UploadPool.ShutdownClosesEverything` | app/src/core/core.c:244-258 | In the order the server keeps, the listener gone before the pool is stopped, everything is closed and every worker has left, whatever happened before. |
| `UploadPool.LateDispatchStrands` | app/src/core/worker/upload_worker.c:259-278 | From every reachable state in which the flag is cleared while the listener is past its test there is a schedule that leaves its descriptor open on the queue for good, with all workers joined. |
| `UploadPool.JoiningOnlyAdvances` | app/src/core/worker/upload_worker.c:302-305 | While the shutdown joins, no step of any thread, with a dispatch that raced the stop or without, adds to what is left to do, and any step of a worker, of the queue or of the joins takes from it. |
| `UploadPool.JoiningNeverStuck` | app/src/core/worker/upload_worker.c:302-305 | While somebody is left to join, in every reachable state and after any race, some thread can take a step that takes from what is left, so the joins return. |
| `UploadQueue.RingPut` | app/src/core/worker/upload_worker.c:272-274 | Writing at the tail of the circle appends to the sequence it stands for, unless it is full. |
| `UploadQueue.RingTake` | app/src/core/worker/upload_worker.c:193-195 | Moving the head takes the first of the sequence. |
| `UploadQueue.Queue.constructor` | app/src/core/worker/upload_worker.c:58-70 | A new queue is empty and stopped. |
| `UploadQueue.Queue.Init` | app/src/core/worker/upload_worker.c:214-236 | Only a depth from 1 to 32 and a stopped pool are accepted, and the queue is then empty. |
| `UploadQueue.Queue.Dispatch` | app/src/core/worker/upload_worker.c:259-278 | The descriptor goes to the end of the line if and only if it is valid, the pool runs and the line is below its depth. |
| `UploadQueue.Queue.Take` | app/src/core/worker/upload_worker.c:193-195 | The descriptor taken is the first in line and the rest keep their order. |
| `UploadQueue.Queue.Drain` | app/src/core/worker/upload_worker.c:286-298 | Shutdown closes exactly what was waiting, in order, and leaves the queue empty. |
| `Dispatcher.BestIsUnique` | app/src/core/worker/worker.c:406-466 | There is never a choice between two operators. |
| `Dispatcher.BestIsLightest` | app/src/core/worker/worker.c:406-446 | Without overflow and above the threshold the choice is an operator, not FULL, with the fewest connections served and queued together. |
| `Dispatcher.Worker.LeastLoaded` | app/src/core/worker/worker.c:406-466 | The scan finds the first operator below a tenth of the capacity, or else the first of the least loaded that are not FULL, or none. The worker is marked full if and only if none is found, there are operators, and the last of them is not FULL; in particular it is not when all are FULL. |
| `Dispatcher.Worker.Dispatch` | app/src/core/worker/worker.c:244-297 | The descriptor given goes to the end of the mailbox of the operator chosen and its count goes up by one, modulo 2^32, with every other field and operator as it was; or nothing changes. It is placed if and only if that operator is healthy and has room. |
| `Dispatcher.Saturation` | app/src/core/worker/worker.c:244-297 | With n operators of capacity C, threshold T <= C (or n = 1) and no consumer: any n*C dispatches all succeed, every descriptor waits in the mailboxes exactly as often as it was dispatched, the next fails, and once all loads reach T they differ by at most one. |
| `Dispatcher.SaturationExactly` | app/src/core/worker/worker.c:428-434 | The first n*C dispatches always all succeed if and only if T <= C or n = 1. |
| `Dispatcher.BlindToTheEnd` | app/src/core/worker/worker.c:428-434 | With T > C the first operator is chosen blindly until its mailbox is full and after, however empty the rest. |
| `Dispatcher.FillAndTryOneMore` | tests/worker/dispatch_load_balance_tests.c:66-105 | The load balance scenario for any number of operators, capacity and descriptors: all are placed and one more is refused exactly when all mailboxes are full. |
| `Mailbox.DispatcherReads` | app/src/core/worker/worker.c:273-283 | In every interleaving of push, add, pop and subtract on a wrapping 32-bit count: descriptors arrive in order, and every value the dispatcher can read is the length of the ring or one more, so at most C + 1. |
| `Mailbox.CountWraps` | app/src/core/worker/operator/operator.c:394-398 | The count does wrap to 2^32 - 1 when the operator subtracts before the dispatcher adds. |
| `Mailbox.BoundIsReached` | app/src/core/worker/operator/operator.c:394-398 | C + 1 is reached: the bound cannot be lowered. |
| `OperatorSlots.Operator.constructor` | app/src/core/worker/operator/operator.c:124-199 | A new operator has no clients, an empty mailbox and is initializing. |
| `OperatorSlots.Operator.FreeSlot` | app/src/core/worker/operator/operator.c:484-495 | The slot found is the first that is not busy, or there is none. |
| `OperatorSlots.Operator.StatusUpdate` | app/src/core/worker/operator/operator.c:713-734 | The status becomes Full or Active by the load alone, whatever it was, even Shutdown. |
| `OperatorSlots.Operator.TimerUpdate` | app/src/core/worker/operator/operator.c:736-760 | The period is the short one exactly while there are clients. |
| `OperatorSlots.Operator.Free` | app/src/core/worker/operator/operator.c:564-588 | The descriptor of the slot is open until now and closed once, the count falls by one without wrapping. |
| `OperatorSlots.Operator.AddClient` | app/src/core/worker/operator/operator.c:497-562 | A descriptor ends in the first free slot with a fresh count and clock, or in nobody's hands with all clients as before; count, status and timer follow. A free slot always exists here. |
| `OperatorSlots.Operator.RemoveByFd` | app/src/core/worker/operator/operator.c:590-637 | The one slot serving the descriptor is freed, the descriptor closed once, the count lowered; the status becomes Active whatever it was. |
| `OperatorSlots.Operator.Sweep` | app/src/core/worker/operator/operator.c:762-788 | One pass frees exactly the busy slots expired under their own timeout, closes exactly their descriptors, leaves every other slot untouched, and lowers the count by the number freed. |
| `OperatorSlots.SweptCount` | app/src/core/worker/operator/operator.c:762-788 | Busy slots before a sweep are those after it and those expired. |
| `OperatorSlots.ExpiryMeans` | app/src/core/worker/operator/operator.c:775-778 | What the unsigned difference means: idle for more than 15 seconds before the first request, 60 after, or a clock set back. |
| `OperatorSlots.Operator.HandleTimer` | app/src/core/worker/operator/operator.c:458-482 | A tick sets the period from the count before the sweep and never updates the status. |
| `OperatorSlots.Operator.HandleWakeup` | app/src/core/worker/operator/operator.c:383-417 | Descriptors are taken off the mailbox in order, each gets a slot of its own, new as of now, and no client is disturbed. All are served if and only if the operator was active, has slots enough, and the kernel grants every registration; the first that cannot be ends the call and is left open. |
| `OperatorSlots.Operator.HandleClient` | app/src/core/worker/operator/operator.c:419-456 | An event for a slot that does not serve the descriptor changes nothing; a failed client is removed and no other, and only then are status and timer updated; otherwise the slot ends with what its client has recorded. |
| `OperatorEvents.OnClientEvent` | app/src/core/worker/operator/operator.c:419-456 | Slot table, client object and pump together: on an event the client follows the protocol of a connection, and a request the upload gate claims goes to the pump within the same event. The slot is freed and its descriptor closed exactly if the event ends with a failure, as every close does, and otherwise holds the number of requests served and the time of the last byte; no other slot is touched. Status and timer are set from the load exactly when a client is removed by an event; the sweep for timeouts leaves both. |
| `OperatorSlots.Serve` | app/src/core/worker/operator/operator.c:272-290 | Over any run of wakeup, client, hang-up, timer and shutdown events: the count is the number of busy slots and at most the capacity, clients have distinct open descriptors, each descriptor is in one place, and Active implies a free slot. |
| `OperatorSlots.OneEach` | app/src/core/worker/operator/operator.c:497-637 | If every descriptor is in one place no two clients share one. |
| `Lifecycle.JoinedBeforeDestroyed` | app/src/core/worker/worker.c:299-399 | For every interleaving, creation failure and timeout: each operator thread created is joined exactly once and before its operator is destroyed, and success is reported only after every operator was seen Active, and then all of them serve. |
| `Lifecycle.FailedStartRefuses` | app/src/core/worker/operator/operator.c:236-263 | One operator that fails to start is enough: it ends as failed, and worker_run never succeeds, whatever happens before and after. |
| `Lifecycle.BootGetsOn` | app/src/core/worker/worker.c:299-399 | Each step of the boot thread brings it nearer to where it settles, unless it waits for a thread it has asked to stop or for a report that may still come; a failure reported, or a report that is late, does not hold it up. |
| `Lifecycle.RefusedIsFreed` | app/src/core/worker/worker.c:363-399 | After a start-up that was refused worker_destroy by itself gets to the end, with every operator destroyed. |
| `Lifecycle.AdmissionShows` | app/src/core/worker/operator/operator.c:713-734 | A client that has got its slot shows in the status: FULL with the last one, Active before. |
| `Lifecycle.ShutdownStep` | app/src/core/worker/operator/operator.c:450-455 | A shutdown asked for stays through a step if and only if that step neither removes a client of this very operator by an event nor gives a slot to one whose descriptor had passed the test for Active before. |
| `Lifecycle.ShutdownStaysExactly` | app/src/core/worker/worker.c:363-399 | Whatever happened before an operator is asked to stop: from that moment its status is Shutdown throughout if and only if none of its clients is removed by an event and none that was on its way is added. Requests served on connections that stay, parked sends, sweeps and other operators do not matter. |
| `Lifecycle.NoMoreAdmitted` | app/src/core/worker/operator/operator.c:394-406 | With the shutdown stored no further descriptor passes the test for Active. |
| `Lifecycle.AskedExits` | app/src/core/worker/operator/operator.c:252-292 | In any reachable state a created thread whose operator is in Shutdown, wherever it is in its start-up or loop but inside an admission, exits at its next step. |
| `Lifecycle.ShutdownJoins` | app/src/core/worker/operator/operator.c:252-292 | As long as nothing overwrites the request, the thread has exited, and stays so, once it has been scheduled a single time after it, having first dealt with a descriptor it was just admitting; so the join returns. |
| `Lifecycle.ShutdownOverwritten` | app/src/core/worker/operator/operator.c:713-734 | A run from start-up in which the removal of a client stores Active over the request, the thread serves on and the join waits. |
| `UploadPump.Pump.FeedOnce` | app/src/core/worker/operator/client/upload_pump.c:186-245 | One turn of the loop polls, reads no more than the body still owes, hands it on, and goes on or ends as the adversaries decide. |
| `UploadPump.Pump.Move` | app/src/core/worker/operator/client/upload_pump.c:175-247 | The sink is handed exactly the leftover followed by what was read, nothing is read beyond the body, success means all of it, and every wait lasts ten seconds or what is left of the two hours, whichever is less. |
| `UploadPump.Pump.PumpBody` | app/src/core/worker/operator/client/upload_pump.c:175-247 | A failed transfer gets exactly one error reply, a vanished peer none. |
| `UploadPump.Pump.DrainOnce` | app/src/core/worker/operator/client/upload_pump.c:79-91 | One turn of the drain polls, reads at most a buffer over its front, and goes on or ends as the function of the script, the clock and the peer says. |
| `UploadPump.Pump.DrainRejected` | app/src/core/worker/operator/client/upload_pump.c:72-92 | Draining reads and leaves exactly what that function says, at most the ceiling and a buffer more; every wait is over two seconds after the start; nothing is written to the wire. |
| `UploadPump.DrainStopsForAReason` | app/src/core/worker/operator/client/upload_pump.c:72-92 | A drain stops only at 4 MiB, at its deadline, at a poll that found nothing or failed, at a failed read, or at the end of the peer. |
| `UploadPump.RefusalSurvivesExactly` | app/src/core/worker/operator/client/upload_pump.c:72-92 | A refusal that parks shares its buffer with the drain that follows. What is still to be sent of it survives under every schedule, clock and peer if and only if the connection does not belong to a reactor. |
| `UploadPump.DrainOverwrites` | app/src/core/worker/operator/client/upload_pump.c:266-274 | For any refusal, a schedule on a connection of the reactor that parks it before its first byte and replaces that byte by one the peer sent. |
| `ClaimedConnections.RefusalOnTheWireExactly` | app/src/core/worker/operator/client/upload_pump.c:337-344 | On the wire: whatever happens after a refusal, nothing but it goes out, under every schedule, clock and peer, if and only if the connection does not belong to a reactor. |
| `ClaimedConnections.PeerBytesGoOut` | app/src/core/worker/operator/client/upload_pump.c:72-92 | For any refusal, a whole run on a connection of the reactor, resumed and closed in good order, that sends a byte of the peer's own in place of the first of the refusal. |
| `ClaimedConnections.Connect` | app/src/core/worker/operator/client/client.c:87-98 | A whole connection with a claimed request: up to the claim the protocol, then the pump's one reply after what was said before it, sent, parked, resumed, cut or closed from outside, and nothing else, unless a refusal parks, and then from what the drain has left of it. The application gets the body and ends its ticket once, or gets nothing. |
| `UploadPump.Feed` | app/src/core/worker/operator/client/upload_pump.c:185-246 | However polls, reads and verdicts go, no more is read than the body owes or the peer sends, and success means all of it. |
| `UploadPump.FeedTurns` | app/src/core/worker/operator/client/upload_pump.c:185-246 | A transfer ends only for a reason: every turn but its last is an interruption, an empty socket or an accepted chunk, made before the deadline; the last is a poll that failed or timed out, a failed read, a refused chunk, an ended peer or the deadline, each with its own answer. |
| `UploadPump.Pump.ReadChunk` | app/src/core/worker/operator/client/upload_pump.c:219-243 | A read takes at most a buffer and at most what is owed, and exactly what was read is handed on. |
| `UploadPump.Pump.Conclude` | app/src/core/worker/operator/client/upload_pump.c:359-373 | A complete body is committed and the outcome sent; any other open ticket is aborted. |
| `UploadPump.Pump.TurnDown` | app/src/core/worker/operator/client/upload_pump.c:337-344 | A refused upload gets the refusal, and what the peer is still sending is drained, as far as the function of the drain says. Off a reactor nothing is parked afterwards; under one a parked refusal is what the drain has made of it, byte for byte. |
| `UploadPump.Pump.GiveUp` | app/src/core/worker/operator/client/upload_pump.c:279-285 | A request that cannot be taken further is answered 500 and the connection is going to close; nothing more is read. |
| `UploadPump.Pump.Upload` | app/src/core/worker/operator/client/upload_pump.c:260-374 | A request that cannot be adapted is answered 500 and no ticket begun. Every ticket begun is committed or aborted exactly once, committed only with the whole declared body, none is touched after a failed begin, and the one answer is the refusal, the outcome, or the error for what went wrong. If it parks, all of it is in the buffer, unless it was the refusal. |
| `UploadPump.Pump.HandleClaimed` | app/src/core/worker/operator/client/client.c:87-98 | A request the upload gate claims: the connection is going to close whatever the request asked for, stays only while its one reply is parked, ready for the event that resumes it, and otherwise nothing of the request is left. |
| `EnvConfig.WorkersAgree` | app/src/core/config_validate.c:170-191 | A non-empty value passes validation if and only if the resolver (`worker.c:468-518`) uses it instead of its default, although the two state their bounds and words separately and the resolver ignores errno and an end at the start. |
| `EnvConfig.RingCapacityAgrees` | app/src/core/config_validate.c:195-212 | The same for the ring capacity and its resolver (`worker.c:523-551`). |
| `EnvConfig.MaxClientsAgree` | app/src/core/config_validate.c:216-233 | The same for the clients of an operator (`worker.c:553-573`). |
| `EnvConfig.UploadWorkersAgree` | app/src/core/config_validate.c:237-254 | The same for the upload workers (`core.c:342-357`). |
| `EnvConfig.UploadQueueDepthAgrees` | app/src/core/config_validate.c:258-275 | The same for the depth of the upload queue (`core.c:363-379`). |
| `EnvConfig.WholeIsNumeral` | app/src/core/config_validate.c:183-190 | strtol consumes a whole non-empty string exactly if it is blanks, at most one sign, and digits. |
| `EnvConfig.NumeralScanned` | app/src/core/config_validate.c:183-190 | On a numeral strtol stops at the end with its value, or with the nearest long and ERANGE exactly when it does not fit. |
| `EnvConfig.DecimalScanned` | app/src/core/config_validate.c:183-190 | A number written out in decimal is scanned as itself, however long. |
| `EnvConfig.WrittenOutIsUsed` | app/src/core/worker/worker.c:468-573 | Of all numbers written in decimal, however large, each of the five resolvers uses exactly those within its bounds, as written. |
| `EnvConfig.OperatorsAsAsked` | app/src/core/worker/worker.c:468-521 | As many operators as asked for in decimal up to 255, one a core for all or ALL, and otherwise one a core but the listener's. |
| `EnvConfig.LowestBit` | app/src/core/worker/worker.c:542 | v & (v - 1) is zero exactly for powers of two. |
| `EnvConfig.RingCapacities` | app/src/core/worker/worker.c:523-551 | The ring capacities that can be set are exactly the powers of two from 8 to 1024. |
| `EnvConfig.ValidateTcpPort` | app/src/core/config_validate.c:100-126 | The digit loop and strtol together accept exactly one to five digits with a value from 1 to 65535. |
| `EnvConfig.ValidateUnixPath` | app/src/core/config_validate.c:128-165 | Cutting a copy of the path at its last slash accepts exactly the paths shorter than sun_path in a directory that exists, the root included. |
| `EnvConfig.ValidateListenSpec` | app/src/core/config_validate.c:87-98 | Nothing, such a path, or such a port. |
| `EnvConfig.ValidateStartup` | app/src/core/config_validate.c:43-78 | Start-up is allowed if and only if both listen specifications are good and each size that is set is one its resolver will use; all are looked at even after a bad one. |

## Left out

- OperatorSlots.Operator.HandleWakeup: a descriptor the reject paths let go of is kept in a bucket of its own, because the code neither serves nor closes it.
- UploadPump.Pump.Upload: says nothing about the wording of the application's own responses, which are parameters.
- ClaimedConnections.Connect: a refusal that parks on an operator (whose parsers carry the upload gate too, `operator.c:235-236`) is left out of the wire statement, because the drain can overwrite it: `ClaimedConnections.RefusalOnTheWireExactly`.
- Exchange.FragmentationInvisible: the verdict is a function of the bytes so far; that DB_http parses in pieces what it would parse whole is not shown, as it is not part of this model.
- UploadPump.Pump.HandleClaimed: the two uploads only; the ZIP download, claimed the same way, is `ZipPump.FolderZipPump.Pump`, which is not composed with the connection before it.
- The parser DB_http, the application DB_app and the library behind the mailbox are not part of this model: the parser and the application are one arbitrary function of the requests before and the bytes so far, a ticket or ZIP handle is a record of the calls made on it, the mailbox a bounded sequence.
- The HTTP reader takes bodies counted by exactly one Content-Length and treats any Transfer-Encoding as malformed; the server never sends one.
- The ZIP reader reads stored entries and no archive comment; the pump writes nothing else.
- The extra headers of a response are cut at a maximum that DB_app defines and the model leaves open.
- Header names, values and types are C strings in the code and byte sequences here; a NUL in one does not arise.
- Files are sequences of bytes that do not change while they are copied; memory mapping, sparse files and disk errors other than a failed read are not modelled.
- `_drive_upload`, beyond each worker closing what it took exactly once: its poll loop has the shape of the upload pump's.
- Memory order of the relaxed atomics: each atomic access is one step of an interleaving.
- epoll, eventfd, timerfd, sockets, affinity, logging, systemd activation, listener and router: I/O plumbing whose results are the kernel script or a parameter.
- The path checks of the upload gate: straight-line string checks. Whether a path names a directory is a parameter of `EnvConfig.ValidateUnixPath`.
