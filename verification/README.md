# Reliable file transfer over a lossy network: a verified model

The repository implements its own TCP in user space. A client (`final/ftpc.c`) hands a file, call by
call, to a local daemon (`final/tcpd.c`). The daemon numbers each piece, adds a CRC-32 checksum
(`final/crc32.c`) and sends it over UDP through a "troll" that drops, duplicates, reorders and garbles
datagrams. A separate timer process (`final/timer.c`) tells the daemon when to send again. On the other
side a second daemon reassembles the pieces, acknowledges them and answers the requests of the server
(`final/ftps.c`), which writes the file. Two earlier programs are modelled beside it: the pattern counter
of `lab1/count.c` and the ten-slot window of `proj1/tcpd.c`.

This project states what that protocol promises and proves it for every input, every run and every
interleaving.

## Layout

| file | what it holds |
|---|---|
| `Bytes.dfy`, `Crc32.dfy` | bytes, the table-driven checksum, the bit-serial definition, burst detection |
| `Wire.dfy` | packages and acknowledgements as bytes under a checksum |
| `Syndrome.dfy`, `Straddle.dfy` | bursts that run from the checksum field into the bytes it covers |
| `TimerList.dfy` | the delta list and the routines of the timer process, as a class over specification functions |
| `TimerRun.dfy` | absolute deadlines, and what every run of the timer's main loop does |
| `Sender.dfy` | the sending half of the daemon: sockets, handlers, retransmission |
| `Receiver.dfy`, `ReceivingSock.dfy` | one receiving session: reassembly, the drain, the buffer it fills |
| `ServerTables.dfy`, `ServerDaemon.dfy` | the receiving daemon: waiting and accepted sessions |
| `Conversation.dfy` | one session seen from both ends |
| `Protocol.dfy` | the step system: two daemons, the timer process and the network |
| `Bindings.dfy`, `Buffering.dfy`, `Tokens.dfy`, `TimedRun.dfy` | the bound sockets, the count of buffered packages, the timer tokens, the timer's rounds inside the protocol |
| `Answers.dfy`, `Admissions.dfy` | the receiving side in every run: the answers to RECV, and which sessions get in when |
| `Ordering.dfy`, `LiveTimers.dfy` | the sending side in every run: order, timer requests, acknowledgements |
| `Reliability.dfy`, `Alignment.dfy`, `Sentinel.dfy` | what holds in every run: the received stream, requests that never split, the numbers never sent |
| `Paths.dfy`, `Retransmission.dfy`, `Completion.dfy`, `Overrun.dfy` | continuations of a run, what they can still bring about, and a run after which they cannot |
| `Progress.dfy`, `Liveness.dfy`, `Fairness.dfy` | infinite runs with fair loops and a fair network, and that every run can go on to one |
| `Framing.dfy`, `FileTransfer.dfy`, `TransferRun.dfy` | the two applications, what every run of a transfer keeps, and continuations that complete it |
| `Delivery.dfy` | infinite runs of a transfer, in which the server has the file in the end |
| `CStrings.dfy`, `Count.dfy` | zero-terminated strings, the pattern counter and its chunked reader |
| `Window.dfy` | the window of the earlier project |

Every routine that changes state is a method of a class or works on an array, and its contract equates the
new state with a specification function of the old one. The theorems are about those functions, so that a
method that swapped two steps or skipped one would no longer meet its contract, and a specification that
did would break an invariant.

## How the network and the clock are modelled

The network holds everything ever written to it. A datagram is lost when it is never delivered, repeated
when it is delivered twice, and reordered when a later one is delivered first. A delivered datagram either
carries a matching checksum and is a copy of one that was sent, or does not match, and is dropped by the
code under proof. It arrives on the bound socket that its session was connected to, and on no other.
`Reliability.CopiesAndBursts` and `Reliability.AckCopiesAndBursts` show that every copy garbled in at most 32
consecutive covered bits, in the checksum field alone, or in at most 29 consecutive bits of a package (27 of an
acknowledgement) that may lie in both, is of the second kind. The channel between daemon and timer is
local: it loses nothing and keeps order. Time is a real number that never goes back.

The safety theorems hold for the steps in any order. Where a continuation is said to exist, it also keeps to
the order of the main loops (`Paths.Orderly`): each event at the sending daemon is followed by a flush, each
event at the receiving one by its accepts and its drains. The theorems about infinite runs
(`Liveness.EverythingArrives`, `Delivery.FileIsDelivered`) assume that the loops go on: that after a notice the
next step of the sending daemon is the flush that ends its turn, whatever the timer and the receiving daemon do
in between, that flushes, notices and timer requests keep being served, and that time does not stand still. They
also assume that what is sent again and again is delivered again and again. `Fairness.FairContinuation` shows
that a run in which no session has passed the sentinel can go on to one that meets all this, and
`Delivery.SomeTransferIsFair` that there are transfers that do.

## Where the code does not do what it is meant to do

- The drain's second branch (`final/tcpd.c:416-422`) copies part of a package but leaves the fill count
  alone, so the copied bytes are overwritten. The received stream is exact if and only if no drain has met a
  request that ends inside a ready package (`Receiver.DrainLoopExact`, `Reliability.ExactPrefix`);
  `Receiver.SplitLosesFirstByte` is a concrete case. No process whose requests end where payloads end reaches
  the branch (`Alignment.AlignedIsExact`), and so the two applications never do (`FileTransfer.FileArrives`).
- The checksum stands in front of the bytes it covers (`final/Header.h:49-56`), where a CRC expects it behind
  them. A burst that runs from one into the other can be missed although it has fewer than 32 bits: for every
  package there is one of 30 bits, and for every acknowledgement one of 28, that makes an intact one of another
  session out of it (`Straddle.DataBurstMissed`, `Straddle.AckBurstMissed`). No shorter burst is missed
  (`Straddle.DataBurstNoticed`, `Straddle.AckBurstNoticed`).
- `MinSeq` (`final/tcpd.c:455-474`) is taken over the packages in flight only, and starts from a sentinel of
  100000000, so that no number from 100000064 on is ever sent, whether something is in flight or not. Once a
  session has accepted more than 100000064 payloads, the one with that number is never received and stays
  buffered for ever (`Sentinel.NeverReceived`); `Overrun.SentinelIsPassed` is a run that gets there. Everything accepted can still arrive if and only if no session
  has accepted more (`Completion.EverythingCanArrive`).
- `gen_next` (`lab1/count.c:91-93`) resets to 0 on a mismatch instead of falling back. The counter is right on
  every text if and only if no reset happens in front of a border (`Count.ExactIffSafe`), and on every text of
  fewer than n characters if and only if no border that the table misses hides an occurrence in one
  (`Count.ExactBelow`);
  `Count.MissedExample` is a concrete miss.
- In a full window the marking loop (`proj1/tcpd.c:149`) starts where it ends and runs zero times. A window
  with ten packets outstanding never moves again (`Window.FullForever`, `Window.EmptiesIffNotFull`), and any ten
  packets in a row bring it there (`Window.TenSendsStick`).
- `final/README.MD` speaks of a wrap-around buffer and of Jacobson's algorithm. The code has no ring; it keeps
  sorted lists. It computes the deviation with the integer `abs` and the timeout from the estimates before the
  current one. The model follows the code.

## Model

| member | source | states |
|---|---|---|
| Crc32.EntryIsShift8 | final/crc32.c:45-89 | every one of the 256 table entries is eight shift-and-xor steps of its index with the polynomial 0xedb88320 |
| Crc32.TableStepIsFeed | final/crc32.c:99-100 | one turn of the loop does to the register what clocking in eight bits, lowest first, does |
| Crc32.Crc32 | final/crc32.c:91-103 | for every buffer, length and start value the loop returns the bit-serial CRC |
| Crc32.CheckValue | final/crc32.c:91-103 | the digits 1 to 9 have the checksum 0xcbf43926, as the standard CRC-32 has it, complemented at both ends |
| Crc32.CrcOfConcat | final/crc32.c:92-102 | carrying the value on from one buffer to the next gives the CRC of both together |
| Crc32.FeedInjective | final/crc32.c:99-100 | different registers stay different whatever is clocked in |
| Crc32.WindowInjective | final/crc32.c:99-100 | from one register, different strings of at most 32 bits lead to different registers |
| Crc32.BurstDetected | final/crc32.c:91-103 | two different messages of one length that differ only within 32 consecutive bits never have the same checksum |
| Crc32.LongerBurstMissed | final/crc32.c:91-103 | the bound is sharp: two messages that differ within 33 bits have the same checksum |
| Wire.DataRoundTrip | final/tcpd.c:864-880 | a package sealed by SEND is read back unchanged, every field of it, whatever bytes the padding and the unused end of the body array hold |
| Wire.AckRoundTrip | final/tcpd.c:195-201 | an acknowledgement sealed by the receiver is read back unchanged |
| Wire.DataLayout | final/Header.h:49-56 | the 1020 covered bytes of a package: session, number, padding, length and body, each at its offset, least significant byte first |
| Wire.AckLayout | final/Header.h:60-65 | the 8 covered bytes of an acknowledgement: session and number |
| Wire.GarblingIsNoticed | final/tcpd.c:127-132 | a datagram garbled in at most 32 consecutive covered bits, or in its checksum, is never taken for a package or an acknowledgement |
| Syndrome.DataSpreads | final/crc32.c:91-103 | a difference confined to the first i bits of 1020 bytes, i at most 28, changes one of the first i + 3 bits of the checksum at least; one in the bits 0, 1 and 3 changes none of the first 6 |
| Syndrome.AckSpreads | final/crc32.c:91-103 | a difference confined to the first i bits of 8 bytes, i at most 26, changes one of the first i + 5 bits of the checksum at least; one in the bits 0, 3 and 4 changes none of the first 9 |
| Straddle.DataBurstNoticed | final/tcpd.c:127-132 | a package garbled in at most 29 consecutive bits, wherever they lie in checksum and covered bytes, is never taken for an intact one |
| Straddle.DataBurstMissed | final/Header.h:49-56 | the bound is sharp for every package: some 30 consecutive bits can be garbled so that it is read as an intact package of another session |
| Straddle.AckBurstNoticed | final/tcpd.c:251-257 | an acknowledgement garbled in at most 27 consecutive bits, wherever they lie, is never taken for an intact one |
| Straddle.AckBurstMissed | final/Header.h:60-65 | the bound is sharp for every acknowledgement, with 28 bits |
| Straddle.ZerosRejected | final/tcpd.c:127-132 | a datagram of zeros, checksum and all, is never taken for a package or an acknowledgement: 1020 and 8 zero bytes have the checksums 0x67bbaf86 and 0x6522df69 |
| TimerList.TimerProcess.InsertRequest | final/timer.c:104-141 | the list becomes the specified insertion, with a new node split from its successor, and a duplicate id is refused with 1 |
| TimerList.TimerProcess.CancelRequest | final/timer.c:144-170 | the first node with the id goes and its time passes to its successor; an unknown id changes nothing and returns 1 |
| TimerList.TimerProcess.UpdateTimerList | final/timer.c:173-202 | elapsed time comes off the first node and overshoot moves on through all that expired |
| TimerList.TimerProcess.SendCallbacks | final/timer.c:205-229 | exactly the expired front of the list is taken off and notified, in order |
| TimerList.TimerProcess.Round | final/timer.c:62-94 | one round is update, then request, then callbacks |
| TimerRun.RepIsPrefixSum | final/timer.c:123-137 | the absolute form of a list: deadlines are prefix sums of the remaining times |
| TimerRun.InsertRep | final/timer.c:122-137 | insertion gives the new timer its duration as deadline, behind equal ones, and moves no other deadline |
| TimerRun.RemoveRep | final/timer.c:161-165 | cancelling takes one timer out and moves no other deadline |
| TimerRun.UpdateRep | final/timer.c:183-199 | time passing maps every prefix sum P to the larger of 0 and P minus the elapsed time |
| TimerRun.ExpiredRep | final/timer.c:208-226 | the callbacks go to exactly the timers whose deadline has come |
| TimerRun.RoundRep | final/timer.c:62-94 | one round of the delta list is one round of a queue of absolute deadlines: same timers fired, same order, same queue left |
| TimerRun.RunKeepsInv | final/timer.c:47-97 | over every run: everything fired was due, everything waiting is not, and fired and waiting together are in order of deadline |
| TimerRun.FiresInFirstDueRound | final/timer.c:47-97 | a timer that fires was started with that deadline, is not early, and fires in the first round whose clock has reached it |
| TimerRun.FiringOrder | final/timer.c:47-97 | over a whole run timers fire in deadline order, ties in the order they were started |
| TimerRun.StartedTimerFires | final/timer.c:47-97 | a timer started with duration d at clock t and not cancelled fires in a round if that is the first with clock at least t+d, once in it, and stays in the list while no round has reached t+d |
| TimerRun.FiresExactlyOnce | final/timer.c:47-97 | over a whole run, a timer that is not started again, and not cancelled by the round in which it comes due, fires in exactly one round, once: the first with clock at least t+d |
| TimerRun.SilentUntilStarted | final/timer.c:144-159 | an id that is not in the list does not fire unless it is started |
| TimerRun.CancelSilences | final/timer.c:80-94 | a cancel read in the very round in which the timer comes due still silences it |
| TimerRun.FiredIsGone | final/timer.c:208-226 | a timer that fired is no longer in the list |
| Sender.ClientDaemon.TcpdConnect | final/tcpd.c:793-805 | CONNECT gives its descriptor an empty socket with its session, in place of an earlier one if there is one, and changes no other |
| Sender.ClientDaemon.TcpdSend | final/tcpd.c:847-882 | SEND appends the package numbered Base to the pending list and counts it, or ends the daemon for a request that is too long or a socket that is not connected; that it goes to the end is what `Ordering.LineInOrder` and `Ordering.FirstSentInOrder` are about |
| Sender.ClientDaemon.RecvAck | final/tcpd.c:216-278 | the first package with the acknowledged numbers leaves the list in flight and the count, a cancel goes to the timer, and a garbled acknowledgement leaves only its round-trip sample |
| Sender.ClientDaemon.RecvTimer | final/tcpd.c:281-329 | an expired package moves from the list in flight to the end of the pending list of a socket with its session, which is the only one when sessions differ; an unknown session ends the daemon |
| Sender.ClientDaemon.HandleSendAllBack | final/tcpd.c:444-509 | every socket is flushed: pending packages below the cut-off are sent, in order, each with a timer request carrying the timeout of that moment |
| Sender.FlushInOrderFlushesEach | final/tcpd.c:447-506 | whatever order the hash table yields, every socket is flushed once, and what goes to the network is exactly what each had to send, nothing else |
| Sender.FlushInOrderStarts | final/tcpd.c:486-500 | the timers that a flush of all sockets starts are those of the packages it sends, in order, each with the estimate that the ones before have left |
| Sender.TimeoutsSettle | final/tcpd.c:486-500 | while the round trip keeps taking m seconds and the estimate is less than a second off, the timer of the k-th package sent runs for m, plus 0.875^k times the error, plus four times 0.75^k times the deviation |
| Sender.FirstTimeout | final/tcpd.c:486-500 | the first timer of the daemon runs for 0.05 seconds, whatever has been measured before |
| Sender.WholeSecondsCount | final/tcpd.c:491 | an error of k whole seconds and a fraction adds k quarters to the deviation: `abs` loses the fraction |
| Sender.SampleCounts | final/tcpd.c:240-241 | only the size of a sample counts, and before the first one the round trip is taken to be 0.01 seconds |
| Receiver.PlaceAddsOne | final/tcpd.c:165-191 | order and duplicates do not matter: the list stays strictly ascending at or above Base and exactly one number is added to those received |
| Receiver.DrainLoopExact | final/tcpd.c:395-423 | the drain ends, consumes ready packages in order, and keeps every byte if the request falls on a package boundary; otherwise it loses at least one |
| Receiver.DrainAnswers | final/tcpd.c:395-437 | a drain hands up exactly as many bytes as were asked for and closes the request, or hands up nothing and leaves it open |
| Receiver.DrainAnswersIff | final/tcpd.c:395-437 | a request that ends on a package boundary is answered if and only if enough is ready, with the next bytes of the stream |
| Receiver.SplitKeepsTail | final/tcpd.c:416-422 | of a package that does not fit into the room left, the room is filled in vain as often as possible, and only the rest, at most as long as the room, is kept |
| Receiver.SplitLosesFirstByte | final/tcpd.c:416-422 | a request for one byte of a two-byte package is answered with the second byte |
| ReceivingSock.AckedSock.Insert | final/tcpd.c:165-191 | the walk and insertion do to the list what the specification says |
| ReceivingSock.AckedSock.TakeOne | final/tcpd.c:402-422 | one turn of the drain, with all copies inside the buffer, and a measure that goes down even through the splitting branch |
| ReceivingSock.AckedSock.HandleRecv | final/tcpd.c:387-438 | the loop over the receive buffer and the answer compute the specified drain, whose answers `Receiver.DrainAnswers` and `Receiver.DrainAnswersIff` describe |
| ServerTables.RecvDataRecord | final/tcpd.c:134-191 | whatever the tables hold, an intact package reaches the one record of its session, no other record changes, and it is acknowledged |
| ServerTables.AcceptBackMoves | final/tcpd.c:342-370 | each accepting socket takes the first session waiting on it: exactly those become accepted, the others stay waiting in order, and no record changes |
| ServerTables.AcceptBackFlags | final/tcpd.c:342-370 | after its accepts a socket is still accepting if and only if it was and nobody waited on it |
| ServerDaemon.Daemon.RecvData | final/tcpd.c:101-213 | the daemon's tables after a data datagram, accepted or waiting or new session, and -2 with nothing changed for a garbled one |
| ServerDaemon.Daemon.TcpdRecv | final/tcpd.c:721-762 | RECV replies 0 to a length of 0, -2 for a session that is not accepted, -3 for one with an open request, and changes nothing then; otherwise it registers the length and does not reply |
| ServerDaemon.Daemon.HandleRecvBack | final/tcpd.c:376-441 | every accepted session is drained once, as `Receiver.DrainAnswers` describes; a request longer than the buffer ends the daemon |
| ServerDaemon.Daemon.HandleAckBack | final/tcpd.c:332-373 | every accepting socket takes the first session waiting on it and stops accepting, as `ServerTables.AcceptBackMoves` and `ServerTables.AcceptBackFlags` describe |
| Conversation.DrainKeeps | final/tcpd.c:387-438 | a drain keeps what one session promises, and the stream is exact afterwards if and only if it was before and no package was split |
| Conversation.AcknowledgeKeeps | final/tcpd.c:261-272 | an acknowledgement takes away only what the receiver has |
| Conversation.DataKeeps | final/tcpd.c:163-205 | a delivered package keeps what one session promises, with the acknowledgement it sends |
| Protocol.StepSessions | final/tcpd.c:41-91 | every step of every daemon, the timer and the network keeps every session's invariant |
| Bindings.StepBindings | final/tcpd.c:580-617 | no step unbinds a socket, and every record belongs to a bound one, so that ACCEPT can find it |
| Admissions.OneForEachCall | final/tcpd.c:332-373 | in every run the sessions accepted on a socket, with the call of ACCEPT still open, are exactly as many as the calls made while none was open |
| Admissions.ArrivedWhereConnected | final/tcpd.c:134-161 | in every run the record of a session belongs to the socket it was connected to |
| Admissions.WaitingInOrder | final/tcpd.c:148-160 | in every run the sessions that wait stand in the order in which their first packages came |
| Buffering.StepCounted | final/tcpd.c:987-991 | every step keeps `in_buffer_packages` equal to the lengths of all lists, and at most 64 |
| Tokens.RoundIds | final/timer.c:62-94 | a round of the timer neither makes nor loses a timer: list and notices together change only by the request |
| Tokens.StepTokens | final/tcpd.c:484-500 | every step keeps exactly one live timer token for each package in flight and none for a pending one |
| TimedRun.RunTimed | final/tcpd.c:488-500 | in every run every timer request carries a positive duration |
| TimedRun.TimerRunsItsLoop | final/timer.c:47-97 | in every run of the protocol the timer list is what the timer's loop makes of its rounds, and the notices are what those rounds fire |
| Reliability.RunInv | final/tcpd.c:41-91 | all invariants hold in every state of every run |
| Reliability.ExactPrefix | final/tcpd.c:376-441 | what the receiving process has got, with the filled part of its buffer, is exactly the first Base payloads accepted, if and only if no drain so far met a request of the session that ended inside a ready package; it is never longer |
| Answers.AnswersAreWhole | final/tcpd.c:721-762 | in every run the lengths handed up to a session are, one after the other, the lengths that RECV registered, but for the last while it is open; what has been handed up never changes |
| Answers.AnsweredWhenReady | final/tcpd.c:395-437 | in every run a drain that does not split answers an open request if and only if enough is at hand, with the next bytes of the stream |
| Alignment.AlignedIsExact | final/tcpd.c:395-423 | whatever two processes use a session: if every request that is registered ends where a payload ends, no drain of the session ever splits a package and the stream is exact |
| Reliability.NothingLost | final/tcpd.c:188-211 | every number below the sender's Base is still kept by the sender or has been received |
| Reliability.AcknowledgedIsReceived | final/tcpd.c:195-211 | an acknowledgement is on the network if and only if the receiver has that package |
| Ordering.EveryArrivalAcknowledged | final/tcpd.c:193-211 | in every run the acknowledgements sent are those of the intact packages that arrived, one for each arrival, duplicates included |
| Reliability.ReassemblyIsOrdered | final/tcpd.c:136-191 | each session has one record, its list is strictly ascending from Base on, and each entry carries the payload accepted under its number |
| Reliability.BufferBound | final/tcpd.c:987-991 | in every run the count is the total of all lists and never exceeds 64 |
| Reliability.InFlightIsTimed | final/tcpd.c:483-500 | every package in flight has exactly one timer token, and no cancel on its way can take it |
| LiveTimers.TimersAreLive | final/tcpd.c:273-275 | in every run each running timer is that of a package in flight, or the request that cancels it is on its way |
| Ordering.TimerIsTold | final/tcpd.c:483-500 | in every run the start requests are the transmissions, in order, and the cancel requests the intact acknowledgements that arrived, in order |
| Reliability.TimerAgrees | final/tcpd.c:302-312 | a notice always names an open session, so the daemon never stops over one, and no start request is refused as a duplicate |
| Reliability.CopiesAndBursts | final/tcpd.c:127-132 | in every run, copies of what was sent may arrive on the bound socket that the session was connected to: an intact one is read as what was sent, and one garbled in a burst (32 covered bits, the checksum field, or 29 bits of both) changes nothing |
| Reliability.AckCopiesAndBursts | final/tcpd.c:251-257 | the same for acknowledgements, with 27 bits of both; a garbled one changes only the round-trip sample |
| Retransmission.FlushSends | final/tcpd.c:463-474 | a flush sends a pending package exactly when its number is below 100000064 and less than 64 above every number in flight |
| Retransmission.FlushRecords | final/tcpd.c:455-462 | the MinSeq it leaves behind is the lowest number that was in flight, or the sentinel if none below that was |
| Ordering.FirstSentInOrder | final/tcpd.c:463-507 | in every run, whenever a package is sent, every lower number of its session has been sent before: packages first go out in the order of SEND |
| Ordering.LineInOrder | final/tcpd.c:305-325 | in every run the pending packages of a socket stand in the order in which they were accepted or their timers expired |
| Ordering.FlightInOrder | final/tcpd.c:481-484 | in every run the packages in flight stand in the order in which they were sent |
| Retransmission.IdleSocketSends | final/tcpd.c:455-474 | with nothing in flight a socket sends something if and only if something pending is below the sentinel plus 64 |
| Retransmission.LowestInFlight | final/tcpd.c:444-509 | after every flush the lowest buffered package of each socket is in flight, provided its number is below 100000064 |
| Retransmission.LowestIsSentAgain | final/tcpd.c:281-329 | from every state of every run the timer and the daemon alone can send the lowest buffered package once more, provided its number is below 100000064 |
| Sentinel.NeverReceived | final/tcpd.c:455-474 | in every run, once a session has accepted more than 100000064 payloads, the one with that number is not received, and something stays buffered |
| Completion.EverythingCanArrive | final/tcpd.c:41-91 | from every state of every run in which every session is connected to a bound socket and no open request ends the receiving daemon, there is a continuation after which nothing is buffered and the receiver has everything accepted, if and only if no session has accepted more than 100000064 payloads; it needs no call by any process |
| Overrun.SentinelIsPassed | final/tcpd.c:455-474 | some run, in the order of the main loops and with a receiving daemon that goes on reading, accepts more than 100000064 payloads in a session; from its last state no continuation whatever brings everything across |
| Liveness.EverythingArrives | final/tcpd.c:41-91 | in every infinite run in which the loops go on, with the flush that ends its turn as the next step of the sending daemon after a notice, and the network is fair, each accepted number below 100000064 is in the end received and acknowledged, and stays so |
| Fairness.FairContinuation | final/tcpd.c:41-91 | every run in which the next step of the sending daemon after each notice was a flush, with every session connected to a bound socket, no open request that ends the receiving daemon and no session past 100000064 payloads, is the beginning of a fair infinite run |
| Framing.SendFile | final/ftpc.c:82-124 | the client's SEND calls are size, name and the chunks of the file |
| Framing.ReceiveFile | final/ftps.c:83-130 | the server's reads of a byte stream amount to the specified parse, and each length it asks for follows from what it has got so far |
| Framing.SizeRoundTrip | final/ftpc.c:83-86 | the server reads the four size bytes back as the size modulo 2^32 |
| Framing.TransferRoundTrip | final/ftps.c:89-130 | the server ends up with the client's name and file if and only if the name has at most 20 bytes and the file fewer than 2^32 |
| Framing.StreamLayout | final/ftpc.c:82-106 | the stream is four bytes of size, most significant first, twenty of the name, filled up with zeros, and the file |
| Framing.CallLengths | final/ftpc.c:87-124 | the client calls SEND with 4 bytes, 20 bytes, and the file in pieces of 1000 and a last one |
| Framing.RequestIsNextFrame | final/ftps.c:106-111 | having received the first k frames the server asks for exactly the length of the next one, and for nothing after the last |
| FileTransfer.Transfers | final/tcpd.c:395-437 | in every run in which the two processes work as ftpc and ftps do, the splitting branch is never reached and each request is answered with one whole frame |
| FileTransfer.FileArrives | final/ftps.c:104-130 | in every such run the server has at all times a prefix of the client's frames, and when it stops asking it has the client's name and file |
| TransferRun.SomeContinuationDelivers | final/ftpc.c:82-124 | from every state of every run of a transfer in which something is bound, every session is connected to a bound socket, no open request ends the receiving daemon and no session is past 100000064 payloads, some continuation in which both processes keep to their programs ends with the server having the name and the file |
| TransferRun.SomeRunDelivers | final/ftpc.c:82-124 | for every such name and file there is a run from the start in which both processes keep to their programs, the daemons to their main loops, and the server ends up with both |
| Delivery.FileIsDelivered | final/ftps.c:83-130 | in every infinite run in which loops and network are fair, no session passes the sentinel, and client and server keep to their programs and go on calling, the server has the name and the file in the end, for good |
| Delivery.SomeTransferIsFair | final/ftpc.c:82-124 | for every such name and file there is an infinite run of that kind |
| CStrings.StrNCopyDown | lab1/count.c:147 | a copy to the front of the same buffer in ascending order yields what was there before, cut at a zero and filled with zeros |
| Count.GenNext | lab1/count.c:77-95 | the array is the table that resets to 0 on every mismatch |
| Count.NextIsBorder | lab1/count.c:85-94 | every table entry is the length of a proper border |
| Count.LongestIffSafe | lab1/count.c:85-94 | the table holds the longest borders if and only if no reset happens in front of a border |
| Count.KmpMatch | lab1/count.c:12-71 | the loop counts what the search counts, in at most twice as many turns as the text has characters; 0 for an empty pattern |
| Count.FoundOccur | lab1/count.c:42-69 | only real occurrences are counted, at strictly increasing starts |
| Count.FoundAll | lab1/count.c:42-69 | every occurrence is counted, overlapping ones too, unless a border that the table misses hides one in a text of that length |
| Count.Missed | lab1/count.c:91-93 | a border that the table does not know makes the search miss an occurrence in a text built from it |
| Count.MissedExample | lab1/count.c:91-93 | the second aabaaa in aabaaabaaa is missed |
| Count.ExactIffSafe | lab1/count.c:12-71 | the counter is right on every text if and only if no reset happens in front of a border |
| Count.ExactBelow | lab1/count.c:12-71 | the counter is right on every text of fewer than n characters if and only if each border c of p[..i + 1] that the table misses has i + 1 - c plus the length of p at n or more |
| Count.CountFile | lab1/count.c:123-150 | the reading loop prints the specified pair of numbers for every input |
| Count.CarryOver | lab1/count.c:142-148 | carrying over one character less than the pattern has loses and repeats no occurrence |
| Count.ReaderExactIff | lab1/count.c:128-150 | for text files the total is right on every input if and only if the pattern has fewer than 100 characters and no border that the table misses hides an occurrence in a text that has, which is a condition on the pattern alone |
| Count.SafeReader | lab1/count.c:128-150 | a pattern whose table is safe is counted right in every text file |
| Window.MyWindow.SavePacket | proj1/tcpd.c:499-507 | saving appends an unacknowledged entry to the queue in the ring |
| Window.MyWindow.LocalPacket | proj1/tcpd.c:83-123 | a packet from the local process is let in at the end of the queue if and only if fewer than ten are outstanding |
| Window.MyWindow.ReceiveAck | proj1/tcpd.c:148-176 | the two loops mark the first entry with the number, unless the window is full, and let the acknowledged front go |
| Window.MarkedExactly | proj1/tcpd.c:149-157 | an acknowledgement is recorded on the first entry with its number and nowhere else, if and only if the window is not full |
| Window.RunInv | proj1/tcpd.c:68-176 | over every run the window holds the last packets let in, in order, and the first is never acknowledged |
| Window.OnlyAckedLeave | proj1/tcpd.c:167-171 | a packet leaves the window, or is marked in it, only after an acknowledgement with its number |
| Window.AcksApplied | proj1/tcpd.c:149-176 | while the window is not full, neither the order of acknowledgements nor repeated ones matter |
| Window.EmptiesIffNotFull | proj1/tcpd.c:149-176 | when every outstanding packet has been acknowledged the window is empty if and only if it was not full |
| Window.FullForever | proj1/tcpd.c:85-89 | once ten packets are outstanding the window never moves again, whatever arrives |
| Window.TenSendsStick | proj1/tcpd.c:85-89 | any ten packets in a row fill the window, and nothing that arrives later changes it |

## Left out

- Sockets, `select`, `fork`, addresses, `malloc` and `free`, logging and `print_tcpd_status`: only the order of events is kept.
- One sending and one receiving daemon: a daemon that does both at once is not modelled. There the gate at 64 packages would also hold back RECV and ACCEPT.
- `tcpd_SOCKET`, and the replies of `tcpd_BIND` and `tcpd_ACCEPT`: binding, and the server's call of ACCEPT, are steps without a reply; a descriptor is not bound twice, since `bind` itself would fail and end the daemon.
- Protocol.StepSessions: the step for CONNECT takes a new descriptor and a new session number; a second CONNECT on one descriptor, or a `rand()` that repeats, is in the contract of `Sender.ClientDaemon.TcpdConnect` but not in the runs.
- Completion.EverythingCanArrive: assumes that every session is connected to a bound socket of the receiving daemon, and no open request longer than its buffer; without the first what it sends arrives nowhere, and the second ends the daemon at its next drain.
- Liveness.EverythingArrives: fairness of the loops and of the network is an assumption; the code does nothing to ensure it.
- Delivery.FileIsDelivered: that the two programs go on calling is an assumption too: a frame that the client has left is sent if the daemon reads calls again and again, ACCEPT is called on the session's socket while it waits, and RECV while more is to be asked for.
- Reliability.CopiesAndBursts: the network of the runs never delivers a datagram that garbling has turned into an intact one of something that was not sent, such as those of `Straddle.DataBurstMissed` and `Straddle.AckBurstMissed`.
- ServerDaemon.Daemon.HandleRecvBack: when a request is too long the daemon ends; the drains of other sessions that its last turn may have finished before that are not modelled.
- Reliability.ExactPrefix: numbers per session stay below 2^32, so that Base does not wrap around; the step for SEND requires it.
- Acknowledgements reach only the socket of their own session: they travel back to the port the package came from.
- A datagram whose checksum matches but whose length field exceeds the body array counts as garbled; none is ever sent.
- Integers travel in the order of a little-endian machine, least significant byte first; the code sends them as they lie in memory.
- `double` is a real number: rounding of the timer's subtractions and of the round-trip estimate is not modelled. The sample that starts the estimate is any real.
- The timer's sleeping time, and its assertion that the clock has been read: a round may happen at any time.
- Framing.SendFile: a file that changes while it is being sent or cannot be read, and a name of 260 bytes or more, which overruns the client's `file_name` (`final/ftpc.c:26`), are not modelled.
- FileTransfer.FileArrives: for names without a zero byte; the server's file operations are reduced to the bytes written.
- CStrings.StrNCopyDown: fixes an ascending copy. C leaves `strncpy` on overlapping ranges undefined, and carrying over from a full buffer overlaps from 51-character patterns on.
- Count.CountFile: rests on the ascending copy of `CStrings.StrNCopyDown` where the ranges overlap.
- Count.SafeReader: rests on the ascending copy of `CStrings.StrNCopyDown` where the ranges overlap.
- Count.ReaderExactIff: rests on the same ascending copy, and is for inputs without zero bytes; `Count.CountFile` follows the code for all inputs, where a zero byte ends the text of its buffer.
- Window.MyWindow.ReceiveAck: packet bodies, the timer and the round-trip estimate of the earlier project are left out.
- `proj1/recvd_tcpd.c` (a superseded byte ring, with no case for a full right end), `proj1/timer.c` (an absolute list; the absolute form here is `TimerRun`), `crc16` and `final/checksum.c` (unused by the final program): they would add only easier members.
- `final/tcpudp.c`, `final/driver.c`, the labs 2 to 5, `proj2` and the Troll: wrappers, drivers and tools.
