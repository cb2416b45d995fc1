# A model of the file synchronizer

This project models the logic of a file synchronizer with one server and several clients per user,
and proves what its protocol promises. The client and the server exchange packets: a text command of
tokens separated by bars, a sequence number, the expected number of packets, and a payload. Files
travel in payloads of at most 8192 bytes; the receiver appends them to `<name>.swizdownload` and on
the last packet renames that file over the real one.

| file | what it models |
|---|---|
| `Seqs.dfy`, `Arithmetic.dfy` | sequences: filters, concatenation; division |
| `Codec.dfy` | commands: joining and splitting at bars, the NUL-padded command field |
| `Chunking.dfy` | cutting a file into payloads |
| `Framing.dfy` | headers and payloads on a byte stream, with partial sends and receives |
| `Transfer.dfy` | the packets of one file, and the reassembling handler |
| `Link.dfy` | one direction: many sender loops, one queue, one receiving folder |
| `World.dfy` | a session: both directions, requests, dispatch; theorems over all runs |
| `Answers.dfy` | what an answer to a request is, in terms of packets and bytes |
| `Wire.dfy` | the same session over byte streams, and that it refines the one over packets |
| `Progress.dfy` | that every session can come to rest |
| `Arrival.dfy` | that requested files arrive |
| `Freedom.dfy` | that users and network may act at any time, and that every file can come |
| `Episodes.dfy` | interruptions, and chains of sessions |
| `Reconcile.dfy` | comparing the listings of both sides, and carrying the plan out |
| `Outbox.dfy` | the sender buffer: producers, the sender thread, the user's exit |
| `Sessions.dfy` | the client and session objects, their handlers and receiver loops |
| `Synchronize.dfy` | a whole reconciliation between these objects over two streams |
| `Deletion.dfy` | a delete request and its way to all sessions of a user |
| `Draining.dfy` | that every deletion can come about |
| `Registry.dfy` | users and their sessions |
| `Listing.dfy` | recursive listings, and the purge of temporary files |
| `WordWrap.dfy`, `ArgParse.dfy`, `IntParse.dfy` | three loops of the option library |
| `ArgTrace.dfy` | where each parsed value comes from, and what became of each argument |

Handlers and loops that change objects or variables are methods, each proved against a function or a
predicate; the theorems are about these, and what such a function means is stated by a theorem that
does not name it. `Sessions.ClientSession.Receive` and `Sessions.Client.Receive` are specified by
`Taken`, and `Sessions.DownloadIsAnswered`, `UploadIsAnswered` and `DataIsWritten` say what that is for
every packet. The theorems about all runs would hold of a model in which little can happen; `Arrival`,
`Freedom` and `Draining` show that what users ask for comes about.

## Where the code does not do what it is for

The model follows the intended behaviour where the code departs from it by a slip, and states what
the code does instead where that is a theorem of its own.

- The sender loops read until a read comes short and leave the payload size at 8192, so that they
  send bytes behind the end of the file and one packet too many for exact multiples
  (client/src/network/network_commands_server.cpp:139-175). The sessions use the rule of
  `bufferize_file`; `Transfer.PaddedNeverClean` says what the loops as written achieve.
- Empty files have no packets and are never transferred. `World` starts no transfer for them.
- `rename_replacing` raises an error exactly when the renaming succeeded
  (common/include/utils.cpp:222). The file is in place then; the model has no error.
- Both delete handlers test for the file's mutex the wrong way round
  (server/src/network/client_connection_session_commands.cpp:116,
  client/src/network/network_commands_client.cpp:107), and the server never creates these mutexes.
  The model takes the mutex as created on demand there. Everywhere else the test is modelled, on an
  explicit set of names, which may lack the names that are transferred: a client has mutexes only for
  what it uploaded, so that a requested file of any other name is never shown, and the server as
  written can complete no file at all (`World.SettledWhenDrained`, `World.NoMutexNoChange`).
- A last packet without a mutex raises an error, which the receiver loop's handler of errors raises
  again out of its thread, so that the process ends
  (server/src/network/client_connection_session_commands.cpp:670-675,
  server/src/network/client_connection_session_network.cpp:196-201,
  client/src/network/network_commands_server.cpp:443-446). In the model the packet is taken and the run
  goes on, so that runs with several stuck transfers go beyond the code.
- The planner pushes files under `sdownload`, which the client takes for no file; it expects
  `supload`. `Reconcile.ConvergesAsWritten` says what happens with the verb as written and the listing
  corrected, `Reconcile.EmptyListingAsWritten` what happens with both as written.
- Nothing ever removes temporary files on the server: only the client purges its folders, when it
  starts and when its user exits (client/src/application.cpp:155-157,
  client/src/ui/client_ui_handler.cpp:50-52). What an interrupted upload leaves behind is still there
  in the next session, and the next transfer of the name makes leftover and file visible together. The
  theorems about runs allow any leftovers and say what becomes of them (`World.NeverPartial`,
  `World.SettledWhenDrained`); `Episodes.InterruptedClean` says when an interruption leaves none.
- The planner's guard against transfers under way uses the name without its last extension, which is
  the reassembler's temporary name only for names without a dot (`Reconcile.GuardMatches`). For these
  a leftover keeps the file from being requested; all others are requested and appended to it.
- An empty listing from a client is read as one file with an empty name, which the server then
  requests (`Reconcile.SecondPlanIsEmpty`).
- `slist_` appends the file name twice and descends into directories only in a branch that regular
  files reach, so that as written it lists nothing
  (server/src/network/client_connection_session_commands.cpp:727-761). `Listing.List` is the intended walk,
  `Listing.ListAsWritten` the other.
- `remove_session` fails for every socket (`Registry.User.RemoveSessionAsWritten`), which shuts users
  out after two logins (`Registry.ShutOut`). `add_session` alone would admit three
  (`Registry.AddKeepsThree`).
- `add_packet_from_broadcast` handles the packet as if the peer had sent it; the model queues it for
  that peer (server/src/network/client_connection_session_network.cpp:205-349).
- A client does not delete a file called `fail` (`Deletion.DeletesExactly`, `Deletion.KeeperKeeps`).
- A failed send raises an error out of the sender thread's handler of errors and so ends the process
  (client/src/network/client_network_handler.cpp:239-244). `Outbox` leaves the packet in front, as the
  code does, and lets the loop go on; a second attempt would follow a partial frame on the stream, and
  the theorems about streams make no promise after a failed call.
- Failure replies and listings are copied into their payload with a limit equal to their own length,
  which `strcharray` refuses unless they are empty (`Codec.StrCharArray` fails if and only if the text
  is not shorter than the limit and the limit is not zero). The model sends them as intended.
- A download request for a missing file goes on to the file's mutex after its failure reply
  (server/src/network/client_connection_session_commands.cpp:265-288); the model has the one reply.
- Options that get a value behind a double dash keep their default, too (`ArgParse.DefaultsAgree`).
- The word wrapper can drop the last letter (`WordWrap.WhatIsLost`).
- The integer parser lets some numerals beyond the unsigned type through (`IntParse.ParsesExactly`).

## Model

| member | source | states |
|---|---|---|
| `World.NeverPartial` | server/src/network/client_connection_session_commands.cpp:651-668 | In every state of every run of a session (any interleaving of edits, requests, sender loops and deliveries in both directions, for names with or without a mutex, from folders with any leftovers of earlier sessions) a plain file at either receiver is what it was at the start, or exactly what the sending side's folder held under that name in some earlier state, or that behind the temporary data the name had at the start. So no partial file is ever visible under a name that began without temporary data. |
| `World.VisibleOnlyAtLast` | server/src/network/client_connection_session_commands.cpp:656-668 | Over every run, a visible file of the server or of the client's download folder changes only in the step that delivers, where there is a mutex, a packet whose sequence number is one less than the expected count, only under that packet's name; it is then the complete snapshot of a started transfer, behind the leftover of an earlier session if that was the first one of the name. |
| `World.SettledWhenDrained` | client/src/network/network_commands_server.cpp:104-175 | In every state of every run, a name of which nothing is queued or still in a sender loop has its last snapshot at the receiver and no temporary file if and only if the receiver has a mutex for it, and it began without temporary data or was transferred more than once. With a mutex and a single transfer the file is the leftover and then the snapshot; without one the leftover and the contents of all its transfers are in the temporary file, and the visible file is the initial one. |
| `World.ServerCatchesUp` | client/src/network/network_commands_server.cpp:104-175 | If the last transfer of a file started in some step and its user left the file alone since, the drained server holds the client's file, given a mutex for it, and no leftover or more than one transfer. |
| `World.ClientCatchesUp` | server/src/network/client_connection_session_commands.cpp:287-369 | The same for a file that the client requested from the server. |
| `Arrival.DownloadArrives` | server/src/network/client_connection_session_commands.cpp:258-377 | Over every run: a file that is on the server and not empty when the client asks for it, with mutexes on both sides, has arrived as soon as the server has taken all packets and nothing of the name is under way: the client then has what the server's folder held in a state after the request, behind temporary data the name may have begun with. |
| `Arrival.UploadArrives` | client/src/network/network_commands_server.cpp:75-175 | The same for a file that the server requests, and that the client has from the request on. |
| `World.NoMutexNoChange` | server/src/network/client_connection_session_commands.cpp:659-675 | Over every run, from any folders, a receiver without a mutex for a name never changes that file. |
| `World.DoKeeps` | server/src/network/client_connection_session_network.cpp:41-203 | Every action (edit, request of any plain name, one loop iteration, other packet, delivery and dispatch) keeps the invariant of both directions, whatever the folders held at the start; it contains, per name, the position invariant of Link. |
| `World.SnapshotsWereThere` | client/src/network/network_commands_server.cpp:106-136 | Every snapshot in the history of a run was the content of the sending folder in some state of that run. |
| `World.AnswerQueues` | server/src/network/client_connection_session_commands.cpp:258-377 | The answer to a request, its sender loop run to the end, appends to the queue the packets of `AnswerPackets`, in order and nothing else, and leaves folder and other loops alone; what these packets are is the next row's claim. |
| `Answers.AnswerMeans` | server/src/network/client_connection_session_commands.cpp:258-377 | These packets, without naming the functions that make them: a file that is there, is not empty, has the sender's mutex and whose command fits is cut into packets `[verb, name, sum]`, numbered 0 to k-1 of k, whose payloads are full but for the last one and concatenate to the file; a missing file gives one packet `[verb, name, fail]` with its reason; an empty file, a missing mutex or too long a command gives nothing. |
| `Answers.DownloadTaken` | server/src/network/client_connection_session_commands.cpp:258-377 | When the server takes `adownload` for a file, that answer is queued or about to be pushed towards the client, the started transfers of the name grow by exactly this content and checksum, and everything else in the session stays as it is. |
| `Answers.UploadTaken` | client/src/network/network_commands_server.cpp:75-175 | The same for the client and `sdownload`. |
| `Answers.AskQueues` | client/src/network/network_commands_client.cpp:17-45 | A user's or the planner's request puts exactly one packet with its command into the queue of its direction, if it fits. |
| `Answers.DataLands` | client/src/network/network_commands_server.cpp:367-440 | A three-token command under the receiver's verb, other than a failure, is written to the name it carries; anything else changes no file. |
| `World.LoopPushesAll` | client/src/network/network_commands_server.cpp:139-175 | Iterating a sender loop to its end appends exactly what it had left to push, in order. |
| `World.RequestReads` | server/src/network/client_connection_session_network.cpp:117-143 | A request is dispatched as a request for the same name if and only if the name has no bar, and never as data. |
| `Link.StartKeeps` | client/src/network/network_commands_server.cpp:101-136 | Starting a transfer of any plain name keeps the invariant: what is under way is the rest of one transfer and then whole transfers, and the temporary file holds exactly the delivered head of the first, behind the leftover of an earlier session if that is the very first one; or, without a mutex, what is under way is the rest of all transfers, and the temporary file holds the leftover and everything delivered. |
| `Link.PushNextKeeps` | client/src/network/network_commands_server.cpp:165-174 | A sender loop pushing one packet, among any others, keeps that invariant for every name. |
| `Link.PushKeeps` | client/src/network/client_network_handler.cpp:209-238 | A packet that is no file data may be queued at any time without disturbing it. |
| `Link.DeliverKeeps` | server/src/network/client_connection_session_commands.cpp:625-668 | Delivering the front packet keeps it, whichever name the packet is for. |
| `Link.Drained` | server/src/network/client_connection_session_commands.cpp:651-668 | Once nothing of a name is under way its file is the last snapshot taken, and it has no temporary file, if and only if there is a mutex for it and it began without temporary data or was transferred more than once; and what the file and the temporary file are in each of the other cases. |
| `Link.NoPartialFile` | server/src/network/client_connection_session_commands.cpp:651-668 | Under the invariant every plain path has its initial content or what one whole transfer made visible; without a mutex it has its initial content. |
| `Link.ChangesOnlyAtLast` | client/src/network/network_commands_server.cpp:411-440 | A delivery changes a plain path only if its packet is the last of that path's transfer and there is a mutex for it. |
| `Link.DeliverPiled` | client/src/network/network_commands_server.cpp:443-446 | A packet that arrives where there is no mutex, even the last one, is appended to the temporary file, and the visible file stays as it is. |
| `Wire.RunRefines` | common/include/network/packet.cpp:12-61 | Every run of the byte-level session, with headers and payloads moved in pieces of any size, corresponds to a run of whole packets with the same actions of users and receivers in the same order, which ends in the abstraction of its last state and in which no other files were there to be sent. |
| `Wire.StepRefines` | common/include/network/socket_commands.cpp:75-89 | Every byte-level step is one step of the packet-level session or none (a hidden step leaves the abstraction unchanged), and keeps the alignment of streams and receivers. |
| `Wire.SessionNeverPartial` | common/include/network/socket_commands.cpp:138-158 | However the network cuts up the streams, either receiver shows under a plain name what it showed at the start, or what was sent in full, or that behind the temporary data the name had at the start. |
| `Wire.SessionSettles` | common/include/network/socket_commands.cpp:138-158 | In either direction, when all bytes have arrived and buffer and loop are empty, a transferred file is its last snapshot, without a temporary file, if and only if its receiver has a mutex for it and it began without temporary data or was transferred more than once; and what it is otherwise. |
| `Wire.NeverStuck` | common/include/network/socket_commands.cpp:75-158 | While a packet is under way, some byte step is possible, or the packet is complete at the receiver. |
| `Progress.EverySessionCanSettle` | common/include/network/socket_commands.cpp:75-158 | From every state of every run at byte level some finite continuation of that run, without new requests, edits or other packets, empties all loops, buffers and streams, and then every transferred file has come to the end that Drained describes; unless it meets a request for a file of more than 2^44 bytes. |
| `Progress.Next` | server/src/network/client_connection_session_network.cpp:402-435 | While there is something to do, some loop, thread or network step can be taken and leaves less to do: fewer requests, or fewer packets to push, or fewer bytes to move. |
| `Arrival.RestHasDownloads` | server/src/network/client_connection_session_commands.cpp:258-377 | Whenever a byte-level session is at rest, the client has every file that was asked for and was on the server then, with the contents it had on the server some time in the session, behind temporary data the name may have begun with, given mutexes on both sides. |
| `Arrival.RestHasUploads` | client/src/network/network_commands_server.cpp:75-175 | And the server has every file that it requested and that the client had all the time. |
| `Freedom.EveryFileCanCome` | server/src/network/client_connection_session_commands.cpp:258-377 | From every state of every byte-level run the session can go on so that a file of the server comes to the client: the request can be made, answered, sent and taken; unless someone has a file of more than 2^44 bytes then. |
| `Freedom.EveryFileCanGoUp` | client/src/network/network_commands_server.cpp:75-175 | Likewise from the client to the server. |
| `Freedom.AnySessionMayBegin` | client/src/application.cpp:155-157 | A session may begin with any folders, whatever temporary files are in them, and with any mutexes. |
| `Freedom.AnyFolderMayCome` | client/src/application.cpp:155-157 | Runs restrict no user: from any state the synchronized folder can become any other, with nothing else changed. |
| `Freedom.AnyoneMayAsk` | client/src/network/network_commands_client.cpp:17-45 | At any time a file with a plain name may be asked for, in either direction, and its request goes into the queue. |
| `Freedom.FrontMayGo` | client/src/network/client_network_handler.cpp:209-238 | The sender may begin with its front packet's frame, whatever the alignment bytes, and erases the packet when all of it is handed over. |
| `Freedom.OthersMayCome` | client/src/network/client_network_handler.cpp:209-238 | At any time any valid packet that concerns no file may be queued, in either direction. |
| `Freedom.PartsMayMove` | common/include/network/socket_commands.cpp:75-158 | The network may hand over any part of what is being sent and of what has arrived, up to the end of the packet being received. |
| `Episodes.InterruptedClean` | server/src/network/client_connection_session_commands.cpp:651-668 | A session that began without temporary data of a name leaves none at a receiver with a mutex, if it is interrupted, exactly when it is between two transfers of that name. |
| `Episodes.ChainNeverPartial` | client/src/application.cpp:155-157 | Over any chain of sessions, interrupted anywhere, the server shows under a plain name what it showed at the very start or exactly what the client's folder held some time in some session, and likewise for the download folder, provided that each session began without temporary data of that name. |
| `Episodes.ChainGoesOn` | client/src/application.cpp:155-157 | A chain can go on from any state of its last session, with nothing under way, the server's folder and the plain files of the download folder as they were, and any synchronized folder and mutexes. |
| `Framing.StreamParses` | common/include/network/packet.cpp:12-61 | Framing round trip: the bytes of any run of valid packets, with arbitrary alignment bytes, read back as the same packets in the same order, with no byte left. |
| `Framing.ParseResumes` | common/include/network/socket_commands.cpp:138-158 | Reading may stop anywhere in a stream and go on with what was left: the packets found do not depend on how the stream is cut. |
| `Framing.HeaderRoundTrip` | common/include/network/packet.cpp:14-49 | The four header fields survive the memory image of the structure, including negative sequence numbers and 64-bit sizes. |
| `Framing.HeaderLayout` | common/include/network/packet.hpp:9-22 | The image of the header byte by byte: the command from offset 0 with NULs behind it, then at 1024, 1032 and 1040 the sequence number in two's complement, the payload's size and the number of packets, where byte i of a field is n / 256^i modulo 256. |
| `Framing.SendData` | common/include/network/socket_commands.cpp:75-89 | For every sequence of partial sends: on success the whole buffer is on the wire, on failure a proper prefix of it; fails only if a call failed. |
| `Framing.ReceiveData` | common/include/network/socket_commands.cpp:138-158 | For every sequence of partial receives: on success the buffer holds exactly the next bytes of the stream; fails only if a call failed. |
| `Framing.SendPacket` | common/include/network/packet.cpp:12-32 | Puts exactly the packet's frame on the wire, or a proper prefix of it when a call fails. |
| `Framing.ReceivePacket` | common/include/network/packet.cpp:34-61 | Takes exactly the first packet of the stream and its bytes, or reports a failed call. |
| `Framing.Relay` | common/include/network/packet.cpp:12-61 | Sending any run of packets and receiving until the stream is empty returns that run, unless a call fails. |
| `Chunking.BufferizeFile` | common/include/utils.cpp:191-218 | The read loop yields the chunks of the file. |
| `Chunking.ChunksCut` | common/include/utils.cpp:203-214 | The chunks concatenate to the file, all but the last are full, and none is empty. |
| `Chunking.CuttingUnique` | common/include/utils.cpp:203-214 | There is no other way to cut a file like that. |
| `Chunking.ChunkCount` | client/src/network/network_commands_server.cpp:131-136 | The number of chunks is (size + b - 1) / b. |
| `Chunking.SequenceNumbersFit` | client/src/network/network_commands_server.cpp:143-146 | The last sequence number fits a 32-bit int if and only if the file has at most 2^44 bytes. |
| `Transfer.OneLastPacket` | client/src/network/network_commands_server.cpp:239 | Of the packets of a file exactly the final one meets the receiver's test for the last packet. |
| `Transfer.LastMeans` | server/src/network/client_connection_session_commands.cpp:656 | On all numbers the structure can hold, the comparison of an int with an unsigned size holds when the number is one less than the count, a number below -1 being taken for one of 64 bits. |
| `Transfer.TransferExact` | server/src/network/client_connection_session_commands.cpp:625-668 | Reassembling the packets of a non-empty file gives the folder with that file and no temporary file if and only if the name has a mutex and no stale temporary data. |
| `Transfer.TransferOutcome` | client/src/network/network_commands_server.cpp:385-440 | What a whole transfer leaves in any folder, with or without a mutex, whatever the temporary file held. |
| `Transfer.ReassembleEffect` | server/src/network/client_connection_session_commands.cpp:625-677 | One packet lengthens the temporary file of its name by its payload and changes no other path, except that the last one, where there is a mutex, turns the whole temporary file into the visible one. |
| `Transfer.SendUntilEof` | client/src/network/network_commands_server.cpp:139-175 | The sender loop as written, which reads until a read comes short and always sends 8192 bytes, produces the padded packets. |
| `Transfer.PaddedOutcome` | client/src/network/network_commands_server.cpp:139-175 | What those packets leave behind: an overlong file, or the right file and a stray temporary file. |
| `Transfer.PaddedNeverClean` | client/src/network/network_commands_server.cpp:139-175 | As written, the file arrives intact exactly when its size is a positive multiple of 8192, and leaves no stray temporary file exactly when it is not a multiple: never both. |
| `Transfer.TempPaths` | server/src/network/client_connection_session_commands.cpp:616 | The temporary path determines the name and differs from it. |
| `Codec.SplitOfJoin` | common/include/utils.cpp:275-290 | Splitting the bar-join of bar-free tokens gives the tokens back. |
| `Codec.JoinOfSplit` | common/include/utils.cpp:275-290 | Joining a split gives any string back, and all tokens are bar-free. |
| `Codec.TokenCount` | common/include/utils.cpp:275-290 | A string has one token more than it has bars, so that the dispatchers' case of zero arguments is unreachable. |
| `Codec.CommandRoundTrip` | common/include/network/packet.hpp:9-22 | Both survive the NUL-padded field of 1024 characters for NUL-free commands of at most 1023 characters. |
| `Codec.ReadersAgree` | server/src/network/client_connection_session_commands.cpp:394-404 | The two readers of a listing, split_buffer and getline, differ exactly on an empty string and a trailing bar, where the first reports one empty name more. |
| `Codec.SplitBuffer` | common/include/utils.cpp:275-290 | The strchr loop over a terminated buffer yields the split of the string it holds. |
| `Codec.StrCharArray` | common/include/utils.cpp:100-115 | Fails, writing nothing, exactly when the string and its terminator do not fit, except that a limit of zero wraps around and lets any string through, unterminated; otherwise fills the field with the string and NULs and touches nothing behind it. |
| `Outbox.Conservation` | client/src/network/client_network_handler.cpp:209-238 | Under every interleaving of producers, sends and failed sends, what was sent followed by what is waiting is everything pushed, in order. |
| `Outbox.ExitLosesWaiting` | client/src/ui/client_ui_handler.cpp:43-48 | A user's exit loses exactly the packets waiting at that moment; what was sent before stays, and what is pushed later is kept in order. |
| `Outbox.EveryPacketAccounted` | server/src/network/client_connection_session_network.cpp:402-435 | Over every run, with any number of exits, the positions of all pushed packets divide into those sent or waiting and those lost, neither part is reordered, and every lost packet was pushed before every waiting one. |
| `Outbox.SenderBuffer.SendFront` | client/src/network/client_network_handler.cpp:216-237 | One round of the sender loop sends the front and erases it, leaves it in front when sending fails, and does nothing when stopped or empty. |
| `Outbox.SenderBuffer.Drain` | server/src/network/client_connection_session_network.cpp:402-435 | The loop puts the buffer on the wire packet by packet in order and leaves it empty, unless a call fails. |
| `Outbox.SenderBuffer.Exit` | client/src/ui/client_ui_handler.cpp:43-60 | Clears the buffer and puts the exit packet on the wire past it; the thread is stopped unless that failed. |
| `Outbox.OnWireParses` | common/include/network/packet.cpp:34-61 | Whatever the alignment bytes, a run of valid packets put on the wire reads back as that run. |
| `Sessions.PushFile` | client/src/network/network_commands_server.cpp:139-175 | The read loop appends exactly the packets of the snapshot to the buffer, or nothing when the command does not fit. |
| `Sessions.ClientSession.RequestedAdownload` | server/src/network/client_connection_session_commands.cpp:258-377 | Appends to the sender buffer the requested file's packets, numbered from 0 and with payloads that concatenate to the file, or one failure packet for a missing file, or nothing without mutex; changes no file. |
| `Sessions.ClientSession.SentSdownload` | server/src/network/client_connection_session_commands.cpp:600-680 | A data packet updates the directory as reassembly demands; a failure changes nothing. |
| `Sessions.DownloadIsAnswered` | server/src/network/client_connection_session_commands.cpp:258-377 | The server's dispatcher, given `adownload` and a name, changes no file and answers as `Answers.AnswerMeans` says. |
| `Sessions.UploadIsAnswered` | client/src/network/network_commands_server.cpp:75-175 | The client's dispatcher, given `sdownload` and a name, likewise. |
| `Sessions.DataIsWritten` | server/src/network/client_connection_session_network.cpp:117-143 | Any other packet is not answered: it is written to its file, and only there, if it has three tokens under the verbs that side accepts and is no failure; else no file changes. |
| `Sessions.ClientSession.Receive` | server/src/network/client_connection_session_network.cpp:57-194 | Dispatch by token count and verb: a request is answered and changes no file, data changes only the directory, for every packet. |
| `Sessions.ClientSession.ReceiverLoop` | server/src/network/client_connection_session_network.cpp:36-203 | Receiving until the stream is empty leaves directory and buffer as the packets in it, requests and data in any mixture, demand in order. |
| `Sessions.ClientSession.SentClist` | server/src/network/client_connection_session_commands.cpp:379-598 | Appends the packets of the plan for the two listings, succeeds if and only if all its commands fit, and reports the number of packets appended: the rounded-up sizes of the files that can be pushed and one for each request. |
| `Sessions.Client.ServerDownload` | client/src/network/network_commands_server.cpp:75-189 | The client's answer to the server's request, likewise: the file in packets `sdownload`, or one failure with the client's text. |
| `Sessions.Client.ServerUpload` | client/src/network/network_commands_server.cpp:191-273 | A pushed packet updates the synchronized folder as reassembly demands. |
| `Sessions.Client.ServerAsyncUpload` | client/src/network/network_commands_server.cpp:367-449 | The same for the download folder, leaving the synchronized one alone. |
| `Sessions.Client.Receive` | client/src/network/client_network_handler.cpp:60-177 | Dispatch: which of the two folders and the buffer a packet changes, for every packet about files. |
| `Sessions.Client.ReceiverLoop` | client/src/network/client_network_handler.cpp:54-185 | Receiving until the stream is empty leaves synchronized folder and buffer as the packets in it demand in order, with data under either of the two verbs. |
| `Sessions.ServerLands` | server/src/network/client_connection_session_network.cpp:160-186 | A stream without requests only lands its data at the server, and queues nothing. |
| `Sessions.ClientRuns` | client/src/network/client_network_handler.cpp:97-169 | A stream without data under the second verb is the client's run of the reconciliation. |
| `Synchronize.Exchange` | server/src/network/client_connection_session_commands.cpp:379-598 | End to end: plan, queues, frames, partial sends and receives, dispatch, reassembly and answers together bring each file where the mutexes of both sides let it go, both folders hold all files of either side if and only if both sides have a mutex for every file that only one had, and all queues and streams are empty, unless a network call failed. |
| `Reconcile.PlanMembership` | server/src/network/client_connection_session_commands.cpp:440-483 | A file is pushed (requested) if and only if it is listed here, has no `.swizdownload` in its name, is not listed there, and no temporary name of its stem is: the stem is the name up to its last dot, or all of a name without one. |
| `Reconcile.StemMeans` | common/include/utils.cpp:228-236 | The stem of a name is the only text that is the name itself, without a dot, or what stands before a dot behind which there is none. |
| `Reconcile.TempNameMeans` | server/src/network/client_connection_session_commands.cpp:411-437 | A name is set aside exactly when it is some text, `.swizdownload`, and some text. |
| `Reconcile.SetAside` | server/src/network/client_connection_session_commands.cpp:412-438 | The erase loop splits a list in place into two order-preserving filters. |
| `Reconcile.FindMissing` | server/src/network/client_connection_session_commands.cpp:440-483 | A search loop computes exactly the filter of the missing names, in order. |
| `Reconcile.MakePlan` | server/src/network/client_connection_session_commands.cpp:406-483 | All four loops together compute the plan. |
| `Reconcile.GuardMatches` | common/include/utils.cpp:228-236 | The temporary name that the planner looks for is the one the reassembler uses exactly when the name has no dot. |
| `Reconcile.PlanPacketCount` | server/src/network/client_connection_session_commands.cpp:491-597 | The reported packet count equals the number of packets queued. |
| `Reconcile.RequestsComeLast` | server/src/network/client_connection_session_commands.cpp:491-593 | All files go out before the requests, which name the requested files in order. |
| `Reconcile.ChecksumMatches` | server/src/network/client_connection_session_commands.cpp:499-534 | The checksum in the command of every packet of a delivered file is that of the delivered contents. |
| `Reconcile.FilesLand` | client/src/network/network_commands_server.cpp:191-273 | The packets of any list of good files, in sequence, deposit each of them: moved with both mutexes, in its temporary file without the receiver's, not sent without the sender's. |
| `Reconcile.DepositAllAt` | server/src/network/client_connection_session_commands.cpp:493-576 | What such a list does to any one file and its temporary file, from the mutexes alone. |
| `Reconcile.Converges` | server/src/network/client_connection_session_commands.cpp:379-598 | Completing the plan for duplicate-free listings of good non-empty files, whatever mutexes there are: a file that one side lacks arrives with both mutexes, gets stuck in a temporary file without the receiver's, is not sent without the sender's, and all other files stay, each side keeping its own version of a name both had. Both sides end with all files of either side if and only if both have a mutex for every file that only one had. |
| `Reconcile.SecondPlanIsEmpty` | server/src/network/client_connection_session_commands.cpp:379-598 | A plan made again from any listings of the two results pushes nothing, and requests nothing if and only if there is a file at all; otherwise the empty listing is read as one empty name, and that is requested. |
| `Reconcile.PlanNeverPartial` | client/src/network/network_commands_server.cpp:234-263 | While the client takes what a plan queued, after any number of packets each plain path of its synchronized folder shows what it did before, or the server's whole file. |
| `Reconcile.ConvergesAsWritten` | server/src/network/client_connection_session_commands.cpp:534 | With the verb as written and the listing as intended, for any mutexes, the client's folder never changes, and both sides end with the same names if and only if the server had none that the client lacked and both have mutexes for all that the server lacked. |
| `Reconcile.EmptyListingAsWritten` | server/src/network/client_connection_session_commands.cpp:397 | With the listing as written as well, which is empty, for any mutexes, the server pushes nothing and requests every file of the session; the client's folder does not change. With both mutexes the server's version of a common name is overwritten; a server without mutexes, as it is written, changes no file. |
| `Deletion.DeletePropagates` | server/src/network/client_connection_session_commands.cpp:77-151 | Over every run in which nobody puts the file back, with any number of sessions asking: at most one request is accepted; then the server has no such file, every other session was told exactly once and the caller never, and a client whose queue is drained has no such file, unless at the start it had the file without a mutex, or the file is called fail. |
| `Deletion.AskedIsGone` | server/src/network/client_connection_session_commands.cpp:77-151 | From the user's request on: if the server had the file when it was asked for, and nobody else removes it there or puts it back, then once all queues are empty the server does not have it, and no client but those that keep it. |
| `Draining.EveryFileCanBeDeleted` | server/src/network/client_connection_session_commands.cpp:77-151 | From every state of an account in which no packet about the file is under way, whatever else is, a user's request can be followed to its end: the run exists, all queues are empty then, and the file is gone as above. |
| `Draining.FilesMayChange` | server/src/network/client_connection_session_commands.cpp:77-151 | Runs restrict nobody: any file may change at any time for another reason, at the server or at a client. |
| `Draining.OthersMayCome` | client/src/network/client_network_handler.cpp:209-238 | And any packet that is no deletion may be queued, in either direction. |
| `Deletion.AskSends` | client/src/network/network_commands_client.cpp:67-136 | A user's request sends exactly one packet `[delete, name]`, removes that file and its mutex at the client, and touches nothing else. |
| `Deletion.UnquotedMeans` | client/src/network/network_commands_client.cpp:73-82 | The name is the argument without its quotes, in order. |
| `Deletion.TakenIsAccepted` | server/src/network/client_connection_session_commands.cpp:77-151 | Taking a request for a file that the server has removes it, sends the packet as it is to each other session, and nothing to the caller. |
| `Deletion.TakenIsRefused` | server/src/network/client_connection_session_commands.cpp:83-104 | Taking one for a file that it does not have sends the caller one failure with the server's text, and changes nothing else. |
| `Deletion.DeletedReplies` | client/src/network/network_commands_server.cpp:275-365 | What a client replies when told to delete: a failure without the file or without its mutex, each with its text; nothing when it deletes it or takes its name for a failure. |
| `Deletion.FailureIsIgnored` | client/src/network/network_commands_server.cpp:275-365 | A failure notice, or a packet that is no deletion, changes nothing at the client. |
| `Deletion.KeeperKeeps` | client/src/network/network_commands_server.cpp:310-341 | And those clients do keep it: whatever they are told, in every run, until their own user removes it. |
| `Deletion.DoKeeps` | client/src/network/network_commands_server.cpp:275-365 | Every step of any session keeps the invariant behind that. |
| `Deletion.OthersUntouched` | server/src/network/client_connection_session_commands.cpp:106-135 | Over every run, a file that nobody changes or asks to delete stays as it is at the server and at every client. |
| `Deletion.DeletesExactly` | client/src/network/network_commands_server.cpp:290-341 | A client told to delete its file fails to exactly when it has no mutex for it or when the file is called fail; no other file changes. |
| `Deletion.HandledTells` | server/src/network/client_connection_user.cpp:132-141 | An accepted request is queued once for each other session and removes the server's file. |
| `Deletion.Device.RequestDelete` | client/src/network/network_commands_client.cpp:67-136 | The user's request drops quotes from the name, appends exactly one packet `[delete, name]` and removes the local file and its mutex. |
| `Deletion.Device.ServerDeleteFile` | client/src/network/network_commands_server.cpp:275-365 | The client's handler with all its branches. |
| `Deletion.ServerUser.BroadcastOthers` | server/src/network/client_connection_user.cpp:122-150 | The loop over the sessions gives each one but the caller exactly one copy. |
| `Deletion.ServerUser.RequestedDelete` | server/src/network/client_connection_session_commands.cpp:77-151 | Without the file the caller gets a failure; with it the others get the packet and the file goes. |
| `Deletion.HandledQueues` | server/src/network/client_connection_session_commands.cpp:106-122 | What the server object does to its folder and its queues is what happens to the server folder and the downward queues of the account. |
| `Registry.AlwaysGood` | server/src/server_handler_new_sessions.cpp:10-37 | In every state of every run of logins, refusals, removals and unloads each user name has one record, with at most two sessions on distinct sockets. |
| `Registry.LoginEffect` | server/src/server_handler_new_sessions.cpp:27-93 | A login is accepted exactly when the user has fewer than two sessions, none on that socket, and the confirmation is sent; then it appends its session to that user's list, and every other list, and a refused login's, stays as it is. |
| `Registry.StepNames` | server/src/network/managers/client_connection_group.cpp:52-81 | A login makes a record for a new name, refused or not; an unload leaves no record of that name and all others in order; a removal changes no names. |
| `Registry.RemoveEffect` | server/src/network/client_connection_user.cpp:68-98 | An intended removal takes exactly the sessions on that socket, from that user only. |
| `Registry.ShutOut` | server/src/network/client_connection_user.cpp:72-75 | While nothing is removed as intended or unloaded, a user with two sessions keeps exactly these, and is refused every login, whatever logins and removals as written follow. |
| `Registry.AddKeepsThree` | server/src/network/client_connection_user.cpp:54-66 | Without the guard of the login, adding any sessions keeps the first three: the limit of two rests on the login alone. |
| `Registry.User.AddSession` | server/src/network/client_connection_user.cpp:54-66 | Admits a session while there are at most two. |
| `Registry.User.GetSession` | server/src/network/client_connection_user.cpp:100-111 | Finds a session on the socket if there is one. |
| `Registry.User.RemoveSession` | server/src/network/client_connection_user.cpp:68-98 | As intended: removes the session on the socket, and fails if and only if there is none. |
| `Registry.User.RemoveSessionAsWritten` | server/src/network/client_connection_user.cpp:72-97 | With the inverted test it fails and removes nothing, whatever the socket. |
| `Registry.UserGroup.GetUser` | server/src/network/managers/client_connection_group.cpp:39-50 | Finds the first record of that name. |
| `Registry.UserGroup.LoadUser` | server/src/network/managers/client_connection_group.cpp:52-61 | Appends an empty record. |
| `Registry.UserGroup.UnloadUser` | server/src/network/managers/client_connection_group.cpp:63-81 | Erases the first record of that name, and only that. |
| `Registry.UserGroup.HandleNewSession` | server/src/server_handler_new_sessions.cpp:5-104 | The guarded sequence over the objects takes the registry through exactly one login step, and succeeds exactly when the guards hold. |
| `Listing.List` | server/src/network/client_connection_session_commands.cpp:713-765 | The recursive walk appends every file's path, with bars between. |
| `Listing.ListAsWritten` | server/src/network/client_connection_session_commands.cpp:727-761 | As written the walk lists nothing, whatever the tree. |
| `Listing.PathsDistinct` | server/src/network/client_connection_session_commands.cpp:713-765 | No file of a tree is listed twice. |
| `Listing.EveryFileListed` | server/src/network/client_connection_session_commands.cpp:713-765 | The listed paths are exactly those to which some chain of folders leads. |
| `Listing.ListingRoundTrip` | server/src/network/client_connection_session_commands.cpp:394-404 | For every tree with bar-free names both readers of the listing recover the walk's list whenever it is not empty. |
| `Listing.Purge` | client/src/network/network_commands_client.cpp:353-388 | Removes the temporary files at every depth and returns their number, or -1 when there is no directory. |
| `Listing.PurgeIsExact` | client/src/network/network_commands_client.cpp:361-382 | The files left are exactly the others, in their places and order, and the count is the number of those removed. |
| `Listing.FolderPaths` | server/src/network/client_connection_session_commands.cpp:713-765 | The tree as a session's folder has exactly the listed paths. |
| `Listing.DirectoriesStay` | client/src/network/network_commands_client.cpp:361-382 | The purge keeps all directories, those it empties and those that are named like temporary files too. |
| `Listing.RestartIsClean` | client/src/application.cpp:155-157 | After the purge no file is left that a reassembler would append to, save one named by the bare extension. |
| `Listing.RestartIsReady` | client/src/application.cpp:155-157 | After the purge there is no temporary path at all if and only if no file was named by the bare extension. |
| `Listing.RestartEndsWell` | client/src/application.cpp:155-157 | As the folder of a session the purged tree has no temporary data of any name with a last component, and all plain files are as they were. |
| `Listing.TempEntries` | client/src/network/network_commands_client.cpp:361 | The extension test selects exactly the names that end in the temporary extension and have more than it. |
| `WordWrap.Wrap` | common/include/external/cxxopts.hpp:2164-2238 | Terminates and returns the rendering of a good layout of the description and its printed end; and of the string itself: no line is wider than the indent and the allowed width, every line but the first begins with the indent, and without the inserted line feeds and indents it is the description up to a position behind which at most one character is not blank. |
| `WordWrap.BreaksLate` | common/include/external/cxxopts.hpp:2195-2203 | A full line is broken behind its last blank, or where it is full if it has none: between the break and there is no blank. |
| `WordWrap.Iterate` | common/include/external/cxxopts.hpp:2176-2230 | Each iteration, even one that moves the cursor back to the last word, makes the line begin later, or else the cursor stand later; it never reads past the end. |
| `WordWrap.WrappedUnique` | common/include/external/cxxopts.hpp:2164-2238 | That description allows no other output. |
| `WordWrap.LayoutUnique` | common/include/external/cxxopts.hpp:2176-2230 | There is one good layout of a text whose rest fits: lines broken at their own line feeds, or at the last blank once full, or right there without blank. |
| `WordWrap.WidthKept` | common/include/external/cxxopts.hpp:2195-2203 | No line holds more than the allowed number of text characters, or one if none is allowed: neither the finished lines of the layout nor the printed last one. |
| `WordWrap.TextKept` | common/include/external/cxxopts.hpp:2205-2225 | Without the inserted breaks and indents the finished lines are the description up to where they end. |
| `WordWrap.WhatIsLost` | common/include/external/cxxopts.hpp:2232-2236 | What is printed is the description up to a position, and what is cut off at the end holds blanks, except in one exactly described case where it is a single other character. |
| `WordWrap.LosesLastLetter` | common/include/external/cxxopts.hpp:2232-2236 | That case happens: `abcdefghi j` at width 10 is printed without its `j`. |
| `ArgParse.OptionParser.Parse` | common/include/external/cxxopts.hpp:2451-2619 | The loops over the parser's fields compute the specified parse or its first error, for every list of arguments. |
| `ArgParse.OptionParser.ParseArgs` | common/include/external/cxxopts.hpp:2460-2579 | The main loop, which tests for inequality, ends at the end of the arguments or behind a double dash and never passes the end. |
| `ArgParse.OptionParser.CheckedParseArg` | common/include/external/cxxopts.hpp:2342-2376 | Implicit value, next argument, or error, and how far the position moves; that the value is the next argument's is `ArgTrace.EveryArgument`. |
| `ArgParse.OptionParser.ConsumePositional` | common/include/external/cxxopts.hpp:2389-2417 | The first remaining positional option that is a container or unset takes the argument. |
| `ArgParse.OptionParser.ParseGroup` | common/include/external/cxxopts.hpp:2497-2540 | The letters of a group in order: implicit values, a value glued to a letter, unknown letters. |
| `ArgParse.OptionParser.ParseDefaults` | common/include/external/cxxopts.hpp:2581-2596 | The pass over all registered names gives out the defaults in visiting order. |
| `ArgParse.ParseAccounted` | common/include/external/cxxopts.hpp:2329-2387 | On success each option's count equals the number of its entries in the sequential list. |
| `ArgTrace.EveryArgument` | common/include/external/cxxopts.hpp:2451-2619 | On success there is a list of items, in the order of the arguments and of the letters in a group, whose values are the sequential list and whose leftovers are the unmatched list. Each value is the text behind its argument's `=`, its option's implicit value, the rest of its group, the argument directly behind, or its argument itself for the first positional option that can take it. Every argument from position 1 on is the source of an item, a value of the one before it, the double dash that ends the options, or `--` with no name behind it; every letter has an item or is part of a value; and an argument is left over only when no option can have it. |
| `ArgTrace.EveryError` | common/include/external/cxxopts.hpp:2451-2619 | A failed parse has its reason in one of the arguments, or in the names of positional options: an unknown name, a missing argument of the last one, or a syntax that is not allowed. |
| `ArgTrace.DefaultsListed` | common/include/external/cxxopts.hpp:2581-2596 | The list of defaults has, in visiting order, one entry for each defaulted option, with its name and its default value. |
| `ArgParse.DefaultsOnce` | common/include/external/cxxopts.hpp:2581-2596 | Each option is given its default at most once, even when registered under two names, and exactly if it has one and was not parsed before that point. |
| `ArgParse.DefaultsAgree` | common/include/external/cxxopts.hpp:2581-2613 | The options with a default that are listed as defaulted are exactly those with count zero, if and only if no argument behind a double dash goes to an option with a default not parsed before. |
| `ArgParse.DefaultsSafe` | common/include/external/cxxopts.hpp:2581-2613 | They agree whenever there is no double dash, or no positional name leads to an option with a default, which a caller can check beforehand. |
| `ArgParse.DefaultAndValue` | common/include/external/cxxopts.hpp:2598-2606 | An input where they differ: a positional option with a default, and the arguments `-- hello`. |
| `ArgParse.TrailingCounts` | common/include/external/cxxopts.hpp:2598-2606 | The arguments behind a double dash raise the counts of the options that take them, and of no others. |
| `IntParse.Accumulate` | common/include/external/cxxopts.hpp:952-982 | The loop computes the digits' accumulation in the unsigned type, or fails on a bad digit or when the wrap test fires. |
| `IntParse.AccumulatesExactly` | common/include/external/cxxopts.hpp:952-982 | While the number fits the unsigned type, the wrap test never fires and the result is the number. |
| `IntParse.AccumulatesResidue` | common/include/external/cxxopts.hpp:975-981 | Whatever is accumulated is the number modulo the size of the type, and comes from digits only. |
| `IntParse.AccumulatesIff` | common/include/external/cxxopts.hpp:975-979 | The wrap test lets a numeral through if and only if the residues of its heads never fall from one digit to the next. |
| `IntParse.DigitsAre` | common/include/external/cxxopts.hpp:956-973 | A digit's value is its place among 0 to 9, or among 0 to f in either case, and nothing else is a digit. |
| `IntParse.NumeralsDenote` | common/include/external/cxxopts.hpp:952-982 | Every number's decimal numeral, and its hexadecimal ones in both cases, denote that number. |
| `IntParse.Limits` | common/include/external/cxxopts.hpp:881-911 | The limits of the 8, 16, 32 and 64 bit types, signed and unsigned. |
| `IntParse.NegationFits` | common/include/external/cxxopts.hpp:922-930 | The two-step negation is exact down to the most negative number, and neither step leaves the signed type. |
| `IntParse.ParseInteger` | common/include/external/cxxopts.hpp:939-994 | For every numeral and type: the intended value or error, if and only if the numeral is not overlooked; an overlooked one gives its residue with its sign. |
| `IntParse.ParsesExactly` | common/include/external/cxxopts.hpp:881-994 | Parsing gives the signed value if it is in range and an error otherwise, if and only if the numeral is not overlooked: it is beyond the unsigned type, yet, read digit by digit, its residue modulo the size of the type never falls, and the last one is in range. |
| `IntParse.SixBillion` | common/include/external/cxxopts.hpp:975-979 | 6000000000 parsed as a 32-bit int gives 1705032704: the wrap test is no complete overflow test. |

## Left out

- Sockets, `select`, timeouts, host names and the accept call: a connection is a stream of bytes that moves in pieces of any size, and whose calls may fail.
- The session sender's use of the default socket (server/src/network/client_connection_session_network.cpp:421): each session has its own stream here.
- MD5: an opaque function of the contents that yields 32 characters without bars or NULs; mismatches are only logged by the source.
- Errors of the file system (a file that exists but cannot be opened, a failing append) and reads that overlap a writer: reading a file for a transfer is one step under its mutex.
- Threads and locks: every step of a loop that holds a mutex is atomic, and steps of different loops interleave freely. That a broadcast and the deletion after it are one step is part of this.
- Mutual exclusion by file mutexes: a name in the set of mutexes stands for an existing mutex; a request for a name whose loop is running waits.
- World.DoKeeps: does not cover two loops for one name at a time, because a running loop holds the mutex of its name.
- Mutexes that appear or vanish during a session: each side's set is fixed over a run of `World`. A mutex created after transfers got stuck would let the next one show all of them, one behind the other (`Transfer.TransferExact`).
- Reconcile.Converges: the folders hold no temporary files and no empty files, and names have no bars; an empty file is never transferred, a name with a bar is read as two, and the planner sets temporary names aside (`Reconcile.PlanMembership` covers listings with them).
- Transfers of names that end in the temporary extension, and two paths that denote one file: paths are compared as strings.
- The contents of a payload buffer that is never allocated before it is read into: undefined in the source.
- The client's own `upload` command (client/src/network/network_commands_client.cpp:138-251): the server does not know its verb and answers it as malformed.
- Pings, `list`, `flist`, `exit` and malformed commands: in the runs they are other packets, in `Sessions` they are ignored; the server's overseer, thread start and stop, and the user interface.
- Failure texts of the standard library, and everything that is printed.
- Deletions and files pushed under `supload` in the runs of `World`: they are in `Deletion` and `Reconcile`.
- The inotify watcher; in the runs files change at any time.
- Logins and logouts during a deletion: the sessions of an account are fixed over a run.
- Deletion.Device.ServerDeleteFile: the case in which deleting the file itself fails is not modelled, because file system errors are not.
- Listing.List: entries that are neither regular files nor directories, and the order in which the file system returns entries.
- Registry.UserGroup.LoadUser: creating the user's folder and starting the overseer are not part of this model.
- Matching of option syntax, value conversion other than integers, option groups and help layout: an argument comes classified.
- WordWrap.Wrap: the expansion of tabs and the text of default values come before the modelled loop and are not part of it.
- ArgParse.OptionParser.Parse: the key table of names to hashes that is filled at the end is not modelled; options are numbered.
- Text encodings: a character is a byte.
