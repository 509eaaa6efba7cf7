# Network protocol tools: a verified model

A Dafny model of the protocol logic of a set of small C network programs, with
proofs about every run of it:

- `tftp/`: a file is split into chunks, one worker thread fetches each chunk over
  UDP, and the server keeps one handler thread for each GET. Handlers share a
  queue of five ACKs and one condition variable.
- `ftp/`: the same partition over TCP, with short reads and short writes.
- `irc/`: a rendezvous server with a registry and a waiting list, and the chat
  between two clients that it introduces.
- `archive/chat/src/clientlist.c`: a linked list of clients.
- `https/client.c`: the URL parser.

`dafny verify dfyconfig.toml` checks everything.

## How it is built

| file | what it holds |
|---|---|
| `Octets.dfy` | octets (as `char`), buffers, `memcpy` |
| `StopAndWait.dfy` | one UDP session alone: worker, handler and a link for one datagram that may lose it |
| `AckQueue.dfy` | the bounded ACK queue, as functions and as the class with its array |
| `System.dfy` | the whole UDP program as a transition system over labels |
| `Refinement.dfy` | the whole program refines a set of independent sessions |
| `Safety.dfy`, `Liveness.dfy` | what holds in every reachable state, and what runs without faults reach |
| `Overflow.dfy` | when an ACK can be lost to a full queue |
| `Partition.dfy`, `Download.dfy` | the split of the file, and the results for one client and its output file |
| `Wire.dfy`, `Transfer.dfy` | message formats, and the two UDP loops on real datagrams and arrays |
| `Stream.dfy`, `StreamSystem.dfy` | one TCP connection with failing calls, and all connections of a client over one buffer |
| `Rendezvous.dfy`, `ChatServer.dfy` | the chat server: runs of critical sections, and the arrays they work on |
| `ChatPair.dfy` | a conversation between two clients, from the call to its end |
| `ClientList.dfy` | the linked list |
| `UrlParser.dfy` | the URL parser |

A run is a sequence of labels, each the atomic step of one thread or an act of the
environment; a step is possible when `Enabled` holds and its result is `Apply`. All
statements about runs hold for every sequence, so for every interleaving.

The UDP proof goes through a ghost token for each session that says where its one
datagram is: nowhere, in flight with its contents, or queued. The network is then
exactly the multiset of flying tokens, the queues exactly the queued ones. From
that, each step of the program is one event of one channel, or none.

In the liveness results a fault is a lost datagram, an ACK that finds its queue full, a
failing `sendto` or `fread`, or a wake-up without a signal. Everything else is left open:
the order in which threads run, how long a datagram takes, and timeouts.

## Assumptions about the environment

- UDP loses and delays datagrams and does not duplicate them. The worker never
  compares sequence numbers, so a duplicate would be stored twice. A successful
  `sendto` sends the whole datagram, and every worker has its own address.
- The file does not change during a transfer; a read of it may be short. Every server that
  a client is given has the same file: one without it makes a worker store part of the
  error reply, as `Transfer.ErrorReplyIsTakenForData` shows.
- TCP delivers the bytes written, in order. File sizes fit in a signed 64-bit number.
- Chat messages arrive whole, ids are not empty.
- In runs of the chat server its arrays are not full when a new name is added to them, and
  `/stop_wait` comes from a client that is on the list; `ChatServer` says exactly when the
  source would go past an array or use an unset index.
- The chat server's sockets of live handlers are different from each other. A handler counts
  as live until it has removed its entry; nothing is assumed about numbers in entries that
  are left behind.

## Where the code differs from its notes or from its purpose

- The notes promise retransmission (tftp/README.md:24, tftp/README.md:32). There is none:
  after a loss the handler never moves again (`StopAndWait.LossIsFinal`).
- A worker that cannot send its GET ends with the status of a success
  (`Safety.UnsentLooksDone` is such a run, `Safety.StatusZeroMeansStored` gives the exact
  condition for a correct slice).
- The reply "ERROR File not found" is stored as data; a chunk of exactly twelve bytes
  then counts as downloaded (`Transfer.ErrorReplyIsTakenForData`).
- A failed `write` in `ftp/server.c` is not noticed, because its result is kept in an
  unsigned variable. Inside a piece it makes the server step back by one byte
  (`Stream.FailedWriteTrace` is such a run): a worker that has stored everything then has
  the range exactly if all bytes from the repeated one on are equal
  (`Stream.FailedWriteRepeatsByte`; `Stream.StreamFollowsTrail` for any number of failures).
  At the start of a piece it makes the server write from in front of its buffer
  (`Stream.AstrayExactly`).
- A server of the UDP transfer can lose an ACK to its own full queue, for good, as soon as
  it has more than five sessions (`Overflow.OverflowIffSix`).
- The chat server keeps ports by place in the waiting list and does not move them when
  the list shifts (`Rendezvous.ReplyChangesIffDisturbed`, `Rendezvous.ForeignPortTrace`).
- `/quit` leaves the client's entry in the registry. The id stays taken until a later client
  with the same socket number disconnects and its search hits that entry, and no longer
  (`Rendezvous.QuitKeepsIdTaken`). The later client's own entry is then the one left behind
  (`Rendezvous.WrongEntryTrace`).
- A chat line that begins with LEAVE ends the conversation (`ChatPair.ChatClient.ReceivePeer`).
- A negative number of connections is converted to a huge unsigned one and becomes the file
  size cut to 32 bits: one connection for each byte below 2 GiB, and beyond that whatever
  is left, which may be zero or negative. A request of 0 stays 0. In those cases the
  program divides by zero or declares an array of negative length
  (`Partition.EffectiveConnections`, `Partition.PartitionPossible`).

## Model

| member | source | states |
|---|---|---|
| `StopAndWait.InvStep` | tftp/server.c:94-153 | every event of a session keeps worker, link and handler within one packet of each other, with the bytes in flight being those the handler is at |
| `StopAndWait.PrefixSafety` | tftp/client.c:68-139 | whatever is lost, delayed or timed out, a slice is a prefix of its chunk followed by the zeros of calloc, and the whole chunk on success |
| `StopAndWait.LossIsFinal` | tftp/server.c:121-141 | after a loss the handler never moves again, and the worker can still succeed exactly if it had received its last byte |
| `StopAndWait.SequenceNumbersCount` | tftp/server.c:94-153 | the sequence number of a packet is the number of packets acknowledged before it, and is below the chunk size, so no number repeats or outgrows the header |
| `StopAndWait.AbortIsFinal` | tftp/server.c:102-119 | a handler whose read or send failed never sends again, and nothing more of its session is delivered |
| `StopAndWait.SixthSilenceFails` | tftp/client.c:86-94 | a run in which five receive attempts without an answer leave the worker as it was and the sixth ends it |
| `StopAndWait.EveryCutDelivers` | tftp/server.c:94-153 | every way of cutting the chunk into packets of 1 to 1016 bytes has a run, and it ends with the chunk delivered and the handler done |
| `AckQueue.Find` | tftp/server.c:125-127 | the scan finds the first matching ACK if and only if there is one |
| `AckQueue.Take` | tftp/server.c:131-134 | a match leaves the queue, one copy of it, and nothing else does |
| `AckQueue.TakeKeepsOnePerAddress` | tftp/server.c:131-134 | removal keeps at most one ACK for each address and exactly the other entries |
| `AckQueue.Queue.Route` | tftp/server.c:207-215 | the array after the router's critical section is the old queue with the ACK appended, or unchanged when it was full |
| `AckQueue.Queue.Scan` | tftp/server.c:125-136 | the loop reports a match exactly when there is one, and the array is then the queue without its first match |
| `Refinement.StepRefines` | tftp/server.c:203-217 | each step of the whole program is one event of the channel of its session, or none, leaves all other channels alone and keeps the invariant |
| `Refinement.SystemRefinesChannels` | tftp/server.c:94-217 | every run of the whole program gives each session a run of its own one-slot lossy channel that ends in the same worker, handler, slice and message under way; an ACK dropped at a full queue is a loss |
| `Refinement.WriteStaysInside` | tftp/client.c:128-135 | a worker's copy changes no byte of another worker's slice |
| `Safety.SessionOwnsOneToken` | tftp/server.c:110-151 | in every reachable state a session has at most one message in flight, in hand or queued, and every ACK is for the packet its handler waits for |
| `Safety.NoLostWakeup` | tftp/server.c:122-141 | a handler asleep and not signalled has no matching ACK in the queue |
| `Safety.OneReceiverPerProcess` | tftp/client.c:74-84 | the socket mutex admits one worker of a process at a time to recvfrom |
| `Safety.SlicesArePrefixes` | tftp/client.c:128-139 | in the shared output memory every slice is a prefix of its chunk and zeros, whole on success, all zeros if the GET was never sent |
| `Safety.StatusZeroMeansStored` | tftp/client.c:61-65 | a worker that reports status 0 has a correct slice if and only if its GET was sent or its chunk is all zeros |
| `Safety.UnsentLooksDone` | tftp/client.c:61-65 | the run in which only the GET fails: status 0, and the slice is right only if the chunk is all zeros |
| `Safety.OccupancyBounded` | tftp/server.c:208-213 | a queue never holds more ACKs than its server has handlers waiting for one |
| `Safety.NeverDropped` | tftp/server.c:208-214 | with at most five sessions on a server its router always finds room |
| `Safety.NothingIsExcluded` | tftp/server.c:94-217 | in every reachable state each worker, handler and datagram has all its moves: any read of 1 to 1016 bytes, any loss, timeout, failure or delivery |
| `Safety.DroppedSilently` | tftp/server.c:207-215 | an ACK that finds five in the queue changes nothing but the network and wakes nobody; any other leaves no handler of its server asleep |
| `Safety.WokenLooksAgain` | tftp/server.c:122-141 | after a wake-up without a signal the handler scans the queue |
| `Liveness.ReceiverMoves` | tftp/client.c:74-94 | without faults, the worker that holds the socket mutex waits for something that some thread can still produce |
| `Liveness.Progress` | tftp/server.c:94-153 | without faults, some step other than a fault or a timeout is possible until every worker has succeeded or given up, even when a queue is full |
| `Liveness.MeasureFalls` | tftp/server.c:122-141 | every step that is not a fault lowers a measure, timeouts included, although one broadcast wakes any number of handlers for nothing |
| `Liveness.RetriesAreSilence` | tftp/client.c:86-113 | in every run of the whole program the retry count of a worker is the number of its timeouts since its last ACK |
| `Liveness.StatusExactly` | tftp/client.c:61-139 | the status for pthread_join from what happened, in every run: 0 exactly if the GET failed or no byte is left to receive, 1 exactly if an ACK could not be sent or six timeouts came in a row |
| `Liveness.CleanRunsProgress` | tftp/client.c:68-139 | a run without faults, with any timeouts, has a length bounded by the sizes of the chunks and can go on until all workers have ended; a worker has given up exactly if it has timed out six times in a row |
| `Liveness.MaximalRunsDeliver` | tftp/client.c:134-139 | when only faults and timeouts are left, a worker has succeeded with its chunk in place and status 0 if and only if it has not timed out six times in a row, and has status 1 otherwise |
| `Liveness.CleanRunsComplete` | tftp/client.c:71-139 | every run without faults extends to one in which every worker succeeds that had not given up |
| `Liveness.NoMishapIsClean` | tftp/server.c:208-214 | with at most five sessions on every server a run without losses and failing calls never meets a full queue |
| `Overflow.OverflowIffSix` | tftp/server.c:207-215 | a run in which nothing else goes wrong can lose an ACK to the full queue of a server if and only if the server has more than five sessions |
| `Download.ClientConfigValid` | tftp/client.c:225-249 | the partition gives every worker a region of its own inside the buffer |
| `Download.ConfigSplits` | tftp/client.c:225-249 | the sessions of a client are equal parts of the file with the remainder in the last, servers in turn, each stored at its own offset |
| `Download.SuccessMeansFile` | tftp/client.c:260-280 | if all workers succeed, after any losses and delays, the output is the file |
| `Download.FiveForEachServer` | tftp/client.c:231-233 | no server gets more than five sessions if and only if there are at most five connections for each server |
| `Download.LosslessRunsDeliverTheFile` | tftp/client.c:252-283 | runs without faults are bounded and end with the file unless a worker times out six times in a row |
| `Download.FiveForEachServerDeliver` | tftp/client.c:231-283 | with at most five connections for each server the same holds with no word about queues: only losses, failing calls and spurious wake-ups are excluded |
| `Partition.Plan` | tftp/client.c:204-245 | makes DownloadTasks if and only if a partition is possible, ends the program for an empty file and is undefined otherwise; the tasks have equal sizes with the remainder in the last, follow each other and go to the servers in turn from the first; no 64-bit operation wraps, the validity check never fires and the server's range guard accepts each |
| `Partition.Contiguous` | tftp/client.c:231-238 | DownloadTasks are not empty and follow each other from 0 to the end of the file |
| `Partition.Ordered` | ftp/client.c:167-181 | different DownloadTasks do not overlap |
| `Partition.Covered` | ftp/client.c:167-174 | every byte of the file belongs to a DownloadTask |
| `Partition.EvenSplit` | tftp/client.c:214-238 | all DownloadTasks have the quotient as size and the last one the remainder in addition |
| `Partition.ServersInTurn` | tftp/client.c:232-233 | task 0 goes to server 0 and each next one to the next server, with the first after the last |
| `Partition.GuardIsRange` | ftp/server.c:91 | the server's guard accepts exactly the ranges that lie in the file |
| `Partition.NoWrap` | ftp/client.c:171-181 | the products and sums of the loop stay within 64 bits, and the range guard accepts the result |
| `Partition.EffectiveConnections` | tftp/client.c:208-211 | the effective number of connections for every int that was asked for and every file size |
| `Partition.PartitionPossible` | tftp/client.c:208-222 | that number lies between one and the file size if and only if the request is positive, or negative with a size that is positive as an int |
| `Partition.RoundRobin` | tftp/client.c:232-233 | the number of DownloadTasks that go to each server, exactly |
| `Partition.FloorOrCeiling` | tftp/client.c:232-233 | that number is the floor or the ceiling of the quotient |
| `Wire.GetRoundTrip` | tftp/client.c:59 | a GET is read back whole exactly for names of 1 to 255 octets without white space and NUL, with all 64-bit numbers, and is never routed as an ACK |
| `Wire.GetIs` | tftp/client.c:59 | the text of a GET, cut to 1023 octets |
| `Wire.RouterReads` | tftp/server.c:203 | a datagram is routed as an ACK exactly if it begins with these three letters |
| `Wire.CheckRoundTrip` | tftp/client.c:182 | the same for CHECK |
| `Wire.AckRoundTrip` | tftp/server.c:203-205 | an ACK is routed as one and carries its sequence number |
| `Wire.OkRoundTrip` | tftp/client.c:200 | the file size in an OK reply is read back |
| `Wire.PacketRoundTrip` | tftp/server.c:110-113 | header and payload of a data packet are read back, within the buffer size |
| `Wire.HeaderIsLittleEndian` | tftp/client.c:98-99 | the sequence number of any datagram is its first eight octets, lowest first |
| `Wire.WordLength` | tftp/client.c:58-59 | no 64-bit number takes more than twenty digits, so requests are never cut off |
| `Wire.DecimalDigits` | tftp/client.c:58-59 | numbers are written in decimal, highest digit first |
| `Wire.ScanLargeNumber` | tftp/client.c:200 | a number beyond 64 bits is read as the largest |
| `Wire.ScanNegativeNumber` | tftp/client.c:200 | a number with a minus sign is read modulo 2^64 |
| `Octets.CopyInto` | tftp/client.c:130 | a copy changes exactly its own range |
| `Transfer.DownloadChunk` | tftp/client.c:68-139 | for any sequence of datagrams the loop leaves its part of the buffer as the specification says and changes nothing outside it |
| `Transfer.ReceiveOne` | tftp/client.c:71-137 | one pass of the loop, with all its branches |
| `Transfer.WorkerStops` | tftp/client.c:86-94 | at most 6p + 6 receive attempts for p packets; with payload in every datagram at most as many packets as bytes, so the loop ends |
| `Transfer.RetriesCountSilence` | tftp/client.c:86-113 | the worker gives up for silence exactly at the sixth silent attempt in a row; a packet starts the count anew |
| `Transfer.PacketsAreJoined` | tftp/client.c:96-137 | packets with any sequence numbers are joined in the order of arrival while they fit, each acknowledged with its own number, and the worker succeeds exactly when they fill the chunk |
| `Transfer.TooLongFails` | tftp/client.c:115-119 | a packet longer than what is left is acknowledged and ends the worker with the slice it had |
| `Transfer.OddDatagrams` | tftp/client.c:83 | of a longer datagram 1024 octets count, and exactly those of one to seven octets break the copy |
| `Transfer.DuplicateIsStoredTwice` | tftp/client.c:96-135 | a packet that arrives twice is acknowledged and stored twice, so the assumption that the network does not duplicate is needed |
| `Transfer.ErrorReplyIsTakenForData` | tftp/server.c:73-79 | the not-found reply makes a worker succeed if and only if its chunk is twelve bytes long |
| `Transfer.PassIsFourEvents` | tftp/client.c:96-135 | one pass of the loop over a packet is the channel's poll, deliver, acknowledge and store |
| `Transfer.CutIntoPackets` | tftp/server.c:94-153 | for any lengths of the reads, the packets are numbered from 0, not empty, within the buffer, and together the requested range |
| `Stream.StreamFollowsTrail` | ftp/server.c:98-134 | for every cutting and failing of reads, writes and receives, the stream holds the bytes that the trail of the writes names, and a worker that has stored everything has the range if and only if each byte sent equals the one due |
| `Stream.StreamIsPrefix` | ftp/server.c:98-134 | if no write fails, what was sent is a prefix of the range, what is stored is a prefix of what was sent, and all of it on success |
| `Stream.AnyResultIsPossible` | ftp/server.c:98-134 | in every reachable state reads, writes and receives can have every result that the calls allow, up to a megabyte |
| `Stream.StoredExactly` | ftp/client.c:64-91 | a worker has stored everything exactly if the bytes received add up to its size, and has failed exactly if a recv has |
| `Stream.NothingMoreIsSent` | ftp/server.c:104-123 | after a read that gives nothing or a write that takes nothing the stream does not grow |
| `Stream.FailedWriteRepeatsByte` | ftp/server.c:118-130 | one write that fails inside a piece, with any calls before and after it, repeats a byte and delays all others; what is stored is the range if and only if all bytes from the repeated one on are equal |
| `Stream.FailedWriteTrace` | ftp/server.c:118-130 | a run in which a worker ends content with "aa" for "ab" |
| `Stream.AstrayExactly` | ftp/server.c:119-126 | the server comes to write from in front of its buffer exactly when a write fails before any byte of its piece went out |
| `Stream.AfterFailedWrite` | ftp/server.c:119-126 | the unsigned arithmetic on a result of -1 steps back by one byte, or in front of the buffer |
| `Stream.SmoothRunsFinish` | ftp/client.c:62-91 | without failing calls a download over one connection ends after at most three calls for each byte and one to accept it, and can always go on until all is stored |
| `StreamSystem.JointRunsRefine` | ftp/client.c:167-190 | in every joint run of all connections the calls of one form a run of that connection alone, which ends with the slice that stands in its part of the shared buffer |
| `StreamSystem.OneConnectionPerServer` | ftp/server.c:178-188 | a server is with one connection at most, and can accept a waiting one exactly when it is with none |
| `StreamSystem.OutputExact` | ftp/client.c:167-206 | when all workers have stored their parts, after any failures, the output is the file if and only if every byte sent equals the one due |
| `StreamSystem.StoredMeansFile` | ftp/client.c:167-206 | if no write fails and all workers have stored their parts, the output is the file |
| `StreamSystem.SmoothDownloadFinishes` | ftp/server.c:178-188 | without failing calls a whole download ends after at most three calls for each byte of the file and one for each connection, and can go on until the output is the file, although every server serves one connection at a time |
| `Stream.SendRange` | ftp/server.c:98-134 | the nested loops write exactly the requested range |
| `Stream.ReceiveRange` | ftp/client.c:62-91 | the buffer afterwards is the old one with the first bytes of the stream in the worker's part, all of them when the stream is long enough and those that came when it is too short |
| `Rendezvous.NoDuplicates` | irc/server.c:46-62 | in every interleaving registered ids and waiting ids are each without duplicates |
| `Rendezvous.RegisterExactly` | irc/server.c:46-62 | refused exactly for an id in the registry; otherwise the client is connected under it with the next slot and no port |
| `Rendezvous.WaitExactly` | irc/server.c:114-142 | accepted exactly for a positive port and a client not on the list: its name goes to the end and the offer is made; otherwise nothing changes |
| `Rendezvous.ConnectExactly` | irc/server.c:144-174 | takes exactly the target off the list and tells the port of its slot, or changes nothing |
| `Rendezvous.StopWaitExactly` | irc/server.c:183-199 | takes exactly the client off the list |
| `Rendezvous.LeavingExactly` | irc/server.c:73-90 | a client can leave at any time; a disconnect removes one entry and /quit none, and neither changes the list |
| `Rendezvous.OffersAreConserved` | irc/server.c:114-199 | accepted waits of an id are its CONNECT replies, its withdrawals and one more while it is listed, so an offer goes to at most one connector |
| `Rendezvous.UndisturbedPortIsTold` | irc/server.c:130-163 | the CONNECT reply carries the port last announced in every run that does not disturb the waiting client |
| `Rendezvous.ReplyChangesIffDisturbed` | irc/server.c:163-169 | the port that would be told after any event: changed exactly if the event disturbs the client (a name ahead leaves, the slot is overwritten) and the slot it is left with holds another port |
| `Rendezvous.ForeignPortTrace` | irc/server.c:163-174 | a run from the start in which a client is announced with another client's port |
| `Rendezvous.MildRunsKeepPorts` | irc/server.c:79-133 | everyone on the waiting list is registered throughout a run if and only if no disconnect removes the entry of a waiting client; the list then has room for everyone else, ports are written inside the registry and no registration resets a waiter's slot |
| `Rendezvous.PoliteRunsKeepPorts` | irc/server.c:116-133 | the same holds if clients stop waiting before they disconnect or quit, whatever socket numbers new connections get |
| `Rendezvous.ExpelKeepsOthers` | irc/server.c:79-87 | swap-remove takes out the first entry with the socket and keeps exactly the other ones, also when a socket number stands in several |
| `Rendezvous.RegisteredStep` | irc/server.c:46-87 | exactly which ids are taken after an event |
| `Rendezvous.QuitKeepsIdTaken` | irc/server.c:205-210 | the id of a client that has quit is taken, and registrations of it refused, through exactly those continuations in which no disconnect removes its entry; only one with the same socket number can |
| `Rendezvous.WrongEntryTrace` | irc/server.c:79-87 | a run after which a client that quit is free again and the one that disconnected is registered |
| `ChatServer.Server.Register` | irc/server.c:46-62 | refuses an id exactly when it is registered, else appends it, or goes past the array exactly when its 100 places are taken |
| `ChatServer.Server.Deregister` | irc/server.c:79-87 | the first entry with the socket is replaced by the last |
| `ChatServer.Server.FindWaiting` | irc/server.c:148-155 | the search yields the first place of the name, or the count |
| `ChatServer.Server.BeginWait` | irc/server.c:114-142 | refuses exactly a client on the list or a port that is not positive, else appends the name and writes the port, or goes past the array exactly when its 100 places are taken |
| `ChatServer.Server.ShiftDown` | irc/server.c:165-169 | the shift loop removes exactly the name at that place |
| `ChatServer.Server.Connect` | irc/server.c:148-170 | takes the port from the slot of the target's place, and the target off the list |
| `ChatServer.Server.StopWait` | irc/server.c:185-199 | takes the client off the list; uses an unset index exactly when it is not on it |
| `ChatPair.NoEndIsLeftHanging` | irc/client.c:58-138 | when one end is gone, the other is too or has a LEAVE, end of stream or error still to receive, also while the call is not answered and when a signal breaks a thread's own call |
| `ChatPair.CallGoesThrough` | irc/client.c:105-160 | a call that is answered puts both ends in CHAT mode with a connection |
| `ChatPair.EndsAreFree` | irc/client.c:244-275 | in every reachable state an end can say any line, receive what is there, be interrupted and quit |
| `ChatPair.OrdinaryLineChangesNothing` | irc/client.c:97-100 | a received line that does not begin with LEAVE is taken from the inbox and both ends stay as they are |
| `ChatPair.ClosesExactly` | irc/client.c:68-100 | an open end closes exactly on its own /quit and on a line that begins with LEAVE, an end of stream or an error, which takes it to INFO mode |
| `ChatPair.LinesArriveInOrder` | irc/client.c:58-101 | over every run an end hears what the other said, LEAVE included, in order and from the first line on, and nothing is lost while both are connected |
| `ChatPair.LeaveClosesBoth` | irc/client.c:45-138 | once a LEAVE was sent, by either or both, answering and receiving end after a bounded number of steps with both ends out of the conversation and closed |
| `ChatPair.ChatClient.HandleSigint` | irc/client.c:32-56 | Ctrl+C sends LEAVE in CHAT mode and closes nothing, sends /stop_wait and closes the listener in WAIT mode, and does nothing in INFO mode |
| `ChatPair.ChatClient.ReceivePeer` | irc/client.c:68-100 | the thread closes and returns to INFO exactly on LEAVE, end of stream or error; every line that begins with LEAVE counts |
| `ChatPair.ChatClient.TakeCall` | irc/client.c:111-138 | the wait thread goes to CHAT mode exactly if the caller's id came |
| `ChatPair.ChatClient.QuitCommand` | irc/client.c:260-270 | /quit sends LEAVE in CHAT mode only, and leaves peer, listener and server sockets closed |
| `ClientList.List.Lookup` | archive/chat/src/clientlist.c:116-121 | finds the node with the id exactly if there is one |
| `ClientList.List.Insert` | archive/chat/src/clientlist.c:125-151 | appends exactly one fresh node with the given id, ip and port, or refuses exactly when the id is there; the heap list stays acyclic and the counter is its length |
| `ClientList.List.Remove` | archive/chat/src/clientlist.c:155-189 | deletes exactly the entry with the id, keeps the order of the others, and the removed node is no longer reachable |
| `ClientList.List.MakeEmpty` | archive/chat/src/clientlist.c:79-95 | ends with no node and a null top |
| `ClientList.InsertThenRemove` | archive/chat/src/clientlist.c:125-189 | inserting a new id and removing it gives the list back, and ids stay different |
| `ClientList.RemoveFacts` | archive/chat/src/clientlist.c:155-189 | after a removal the id is gone, all others are there, without duplicates |
| `ClientList.RemovedIs` | archive/chat/src/clientlist.c:155-189 | the entry with the id is cut out and all others stay in their order |
| `UrlParser.UrlRoundTrip` | https/client.c:16-72 | a URL with a port parses to its scheme, host, port and path, for every path and port of an int; refused are port 0, 443 with http, and 80 with https or no scheme |
| `UrlParser.DefaultPorts` | https/client.c:17-31 | every URL without a port parses, with 80 for http and 443 for https or no scheme |
| `UrlParser.PathIsRequired` | https/client.c:33-37 | without a slash behind the scheme a URL is refused |
| `UrlParser.PortMustBePositive` | https/client.c:41-51 | an empty port, one that is no number and a negative one are refused |
| `UrlParser.CutInPlace` | https/client.c:33-54 | the buffer is cut at the first slash and the colon in front of it, and exactly that colon is overwritten |
| `UrlParser.ParseInPlace` | https/client.c:16-72 | the function on its buffer computes the parse of the text it was given |

## Left out

- Socket creation, binding, listening, connecting, name lookup, signal registration and thread creation: system calls without logic of their own.
- All OpenSSL code and the reading of responses in https/client.c.
- Logging, prompts, usage messages and the cast of the thread status.
- Duplicated datagrams in `tftp/`: excluded by assumption, since the code does not detect them.
- The close of the server's shared socket after a failed `sendto` (tftp/server.c:117): every later datagram of that server then counts as lost.
- A request outside the file (tftp/server.c:84-89): the server process ends; `Partition.Plan` shows that no client sends one for the file it was told about.
- A worker's datagram of fewer than eight octets: `Transfer.Pass` stops with `broken` set, since the copy length is then negative and what follows is undefined.
- The file size after a CHECK reply that is not OK: the variable is unset in the source.
- TCP segmentation of chat messages, the `broadcast` function, the `in_chat` field and the client's own `ack_queue`.
- A second call to a client that has answered one, and the commands of INFO mode: `ChatPair` follows one call. It models the two ends as values; `ChatClient` shows the field updates, and the interleaving of its threads is in the events of the pair.
- Reuse of a socket number between the close of a disconnected client and the removal of its entry (irc/server.c:76-83): `Rendezvous` takes the two as one step.
- ChatServer.Server.Register: what a write past the full array of clients does is not modelled; the answer is `Overrun` and the state stays.
- ChatServer.Server.BeginWait: the same for the full array of names.
- ChatServer.Server.StopWait: the same for the unset index; a client that presses Ctrl+C in WAIT mode after the server has handed it out comes to this.
- What the TCP server sends once it is `Astray`: it reads in front of its buffer.
- Failing connects, retries and the backlog of five in `ftp/`: every connection is there, accepted or not.
- File names in `System`: a session carries the file it asks for; the text of the request is in `Wire`.
- Locking in archive/chat/src/clientlist.c: its calls are taken one after the other.
- sendClientList and sendClientInfo in archive/chat/src/clientlist.c, and the other archived programs.
- The handler's wait inside tftp/server.c:122-141 as one method: it runs against other threads, so it is in `System` as separate steps, and only its critical sections are methods of `AckQueue.Queue`.
