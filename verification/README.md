# A verified model of the selective-reject file transfer

A server reads a file in chunks, numbers them, and sends each as a PDU: four bytes of
packet number, a two-byte Internet checksum, a flag, and the chunk. It keeps what it has
sent in a circular window until it is acknowledged. The client `rcopy` writes chunks in
order, keeps early ones in a circular buffer, and answers with RR (everything below this
number has arrived) and SREJ (send this number again). Both sides send through an error
library that drops packets and inverts bytes on purpose.

The project models those parts and joins them. Values and step functions say what each
operation does; classes with the program's own fields and loops are proved against them;
and a transition system over both hosts, the place the server's loop is at, two error
libraries and two first-in first-out channels is proved to refine a protocol over packet
numbers, which has an inductive invariant.

The safety results hold in every state that any run reaches, for every file, chunk size,
window size and pair of host byte orders, with every setting of the error libraries that
has no standard flip, every random draw, and any packet lost or damaged on the way:

- `EndToEnd.EndToEndSafety`: what the client has written is exactly the file up to the
  chunk it expects next, and it is the whole file exactly when every chunk has been taken.
- `EndToEnd.WindowAgreement`, `ServerWindowHolds`, `AcksAreAnswerable`,
  `TimeoutsAreAnswerable`, `ArrivalsKeepBuffered`, `CursorsAdvance`, `MachineInvariant`: the
  two ends agree with everything in flight, the circular buffers never lose or confuse a
  packet, and no cursor moves back although the program compares nothing before it assigns
  them.

The two polling loops and the error library are also described in the raw inputs alone, poll
results, message numbers and draws: `ServerLoop.HeadPolls`, `DrainPolls` and `WaitPolls`,
`FilenameExchange.ExchangeAnswers`, `ErrorChannel.LostExactlyWhen`, `DamagedExactlyWhen`,
`SentBytes` and `DropListByNumber`.

The server makes at most ten resends before it blocks in a read, and stops at the end of
the file; the client goes on flushing only while a packet waits to be read. So a transfer
can be lost for good, also when the client has everything. Which reachable states are lost
is told exactly, from the state alone, both where acknowledgements may arrive damaged and
where they may not (`noisy` in the configuration):

- `Delivery.CanComplete`: some continuation completes the transfer if and only if the state
  is `Fate.Alive`; `Delivery.CanAdvance`: some continuation gets the client another chunk if
  and only if the state `Fate.Moves`. The "if" is for error libraries whose settings can let
  every message through (`ErrorChannel.Delivers`); the "only if" is for all. The runs behind
  the "if" damage nothing where acknowledgements may not be damaged.
- `Delivery.CompletesWithin`, `CompletesPastLists`: a number of messages that only depends on
  the protocol state is enough to let through, so drop lists that the message counters have
  passed do no harm.
- `Delivery.FlushNeverRuns`, `LoopLeavesFlush`: two reached states in which nothing sent is
  missing, and the transfer is lost because no packet comes to wake the client.
- `Delivery.DoomedReachable`, `LostRunningReachable`: for which files and windows a state
  that is lost can be reached at all, and for which one with the server still sending.
- `Delivery.EveryTransferCanComplete`, `TransferCompletes`: from the start every transfer
  can be completed; `Delivery.MuteServer`: not with an error library that lets nothing
  through.

| file | what it models |
|---|---|
| `Bytes.dfy` | machine words, both byte orders, `htonl` and `htons` |
| `Checksum.dfy` | `in_cksum` against RFC 1071 |
| `Pdu.dfy` | `createPDU`, `getPacketNum`, acknowledgements |
| `ErrorChannel.dfy` | `PacketManager`, `errorDrop`, `errorFlipBits` |
| `WindowBuffer.dfy`, `ReorderBuffer.dfy` | the server's and the client's circular buffers |
| `Rcopy.dfy`, `ClientRefinement.dfy` | the client's state machine and its invariant |
| `Server.dfy`, `ServerLoop.dfy` | the server's branches and the loop that chooses them |
| `Protocol.dfy`, `EndToEnd.dfy`, `LoopRuns.dfy` | the protocol over numbers, the system over bytes, and the server's loop in it |
| `Settled.dfy`, `Fate.dfy` | the client's loop and what wakes it, and which protocol states are lost |
| `Decline.dfy`, `Doom.dfy` | that a lost state stays lost |
| `Progress.dfy`, `Completion.dfy`, `Middle.dfy`, `Advance.dfy` | how every other state goes on |
| `Losses.dfy` | transfers from the start, and how they are lost |
| `Continuation.dfy`, `Lifting.dfy`, `Delivery.dfy` | the same for the system |
| `FilenamePacket.dfy`, `FilenameExchange.dfy` | the first packet, and the wait for its answer |
| `AsWritten.dfy` | lines the other files repair, as they stand |

The conditions on the inputs are that the program's arrays and numbers are large enough: a
window of 1 to 2^31 - 1 packets, chunks of 1 to 1400 bytes, and a chunk count plus window
below 0xFFFFFFFF, which the client's buffer uses to say that it is empty.

## When a transfer is lost

Each packet on its way to the client may arrive, or be lost, or be lost only after it has
made the client flush as far as it can. `Fate.May` tries these for each in turn. What
remains is a quiet state, with nothing on its way to the client, and of such a state the
answer is read off.

A chunk is missing when it was sent, the client still wants it, and it is not buffered. A
client in FLUSH sleeps until the next packet. An SREJ for the expected chunk brings that
chunk back; an SREJ for an older one brings an old chunk, which wakes the client.

The client gets another chunk (`Fate.QuietMoves`) unless

- the file has not ended, and the server has used up its ten resends and blocks with
  nothing on its way to it; or the client waits for a chunk, its SREJ is gone, and the
  window cannot close on that chunk before the file ends; or
- the file has ended, and the server has left its loop, or neither a timeout nor an SREJ is
  to come that gets the client on.

The transfer is completed (`Fate.QuietAlive`) in these cases:

- The file has ended. Then the server still polls or waits. In the last wait
  (`Fate.LastWait`) nothing is missing and one packet more will wake the client, or only the
  lowest chunk is missing and there are resends enough to bring it and to wake the client.
- The window will not be closed again before the end (`Fate.Enough`). Then filling a gap
  takes the answer to an SREJ and a packet behind it, and nothing but the server's own sends
  brings that packet: the sends that are left have to cover all that is missing.
- Otherwise (`Fate.MiddleAlive`) the window closes again, and its timeouts fill every gap,
  unless the server is stranded in a wait with nothing to come, or the SREJ is gone and the
  window does not close on that chunk again. If the newest chunks of a closed window are
  missing, the window has to open before they are: by so little that it closes again before
  the end, or with enough to send behind it (`Fate.CanOpen`).

A server whose resends are used up has to read what comes. A damaged acknowledgement only
ends its wait; where there are none, one of those on their way has to leave it in one of the
cases above (`Fate.ReadsOn`, `Fate.Completable`).

## Repairs

The program is unfinished. Where a comment, a sibling line or the other end shows what a
line is meant to do, the model does that; where it was possible to say exactly when the
line as it stands does the same, `AsWritten` does.

| line as it stands | in the model | as written |
|---|---|---|
| `expected` and `highest` are zero at the start of every call (buffmgmnt.c:33-34) | they persist | `AsWritten.ForgottenWrites`, `ForgottenAcks`, `ForgottenRepeats` |
| `in_order_state` returns 2 for end of file and 3 for an early packet, and the caller reads 2 as "buffer" and 3 as "complete" (buffmgmnt.c:39-45, 98, 129) | an early packet leads to BUFFER, end of file completes | `AsWritten.CodesAgree`, `MisreadNeverFlushes` |
| `createPDU` gets a length, a number and a flag in each other's place (buffmgmnt.c:94, 111, 121) | the layout of buffmgmnt.c:133, with flag 34 for end of file as the repository's README says | `AsWritten.MisplacedFlagIgnored` |
| the next lowest number is assigned to a local (rcopyCBuffer.c:131) | it is assigned to `lowest_pktnum` | `ReorderBuffer.RetrieveAsWrittenBreaksLowest`, `AsWritten.StaleStalls`, `StaleRepeats` |
| the packet number is not put through `htonl` (server.c:121, helperfuncs.c:17-18) | callers pass it through `htonl` | `AsWritten.HostOrderNumber`, `HostOrderStore` |
| sends use `buffer_size` or the length received as their length (server.c:184, 201, 245) | the length of the PDU | `AsWritten.CutOffVerifies`, `OverlongVerifies` |
| an SREJ is answered with the stored PDU, and the one rebuilt for it, whose payload length includes the header, is not sent (server.c:243-245) | the rebuilt PDU, with its payload's length, is sent | `AsWritten.ShortAnswerVerifies` |
| loops wait for `pollCall` to return 0, which returns -1 on a timeout (server.c:187, 197, rcopy.c:193, pollLib.c:66) | a timeout is a timeout | `FilenameExchange.TimeoutValue` |
| the file name packet carries its numbers in host order (rcopy.c:150-151) | both encoders are modelled | `FilenamePacket.LiveRoundTrip` |

A read of no bytes leaves the previous PDU in place, and it is sent again
(server.c:115-119, 184); the model keeps this, and sends nothing when there is no previous
PDU. The comment at the head of checksum.c says that an odd length reads one byte past the
end; the code does not, and the model follows the code.

## Model

| member | source | states |
|---|---|---|
| `Checksum.InCksum` | libcpe464/checksum.c:58-86 | the two-byte loop, the odd tail and the carry folds give the complement of the one's complement sum of RFC 1071, without overflowing a signed 32-bit accumulator or reading past the length, for up to 65536 bytes |
| `Checksum.Complement` | libcpe464/checksum.c:81-85 | the folds and the truncation give the complement of the sum's representative modulo 65535 |
| `Checksum.OnesSumIsRep` | libcpe464/checksum.c:66-78 | carries may be deferred: adding words end-around at each step equals reducing one plain sum at the end, and zero only comes from zeros |
| `Checksum.TwoFolds` | libcpe464/checksum.c:82-84 | two folds are enough for every sum below 2^31 |
| `Checksum.SumFitsInt` | libcpe464/checksum.c:60-72 | the sum of 65536 bytes stays below 2^31 |
| `Checksum.OddPadding` | libcpe464/checksum.c:75-79 | an odd packet has the checksum of the packet with a zero byte behind it, on hosts of both byte orders |
| `Checksum.Rfc1071Example` | libcpe464/checksum.c:58-86 | the worked example of RFC 1071, section 3: F2DD or DDF2 as the host reads it |
| `Checksum.ByteOrderIndependence` | libcpe464/checksum.c:70-85 | hosts of both byte orders put the same two checksum bytes into a buffer, of even or odd length, and agree on whether it verifies |
| `Checksum.ByteChangeDetected` | libcpe464/MsgEvents/errorFlipBits.cpp:21-24 | changing any one byte of any buffer, at an even or odd place, changes the checksum |
| `Bytes.NetworkImage` | helperfuncs.c:22-22 | a number put through `htonl` and copied from memory leaves its most significant byte first, on either host |
| `Bytes.NetworkOrder` | helperfuncs.c:22-22 | four bytes that stand for a number with weights 2^24, 2^16, 2^8 and 1 in network order; a little-endian host keeps them in reverse |
| `Bytes.NetworkLoad` | rcopyCBuffer.c:59-68 | loading four bytes and `ntohl` reads them most significant byte first, on either host |
| `Bytes.SameSlot` | rcopyCBuffer.c:87-90 | numbers less than a buffer's size apart share its slot only when they are equal |
| `Pdu.CreatePDU` | helperfuncs.c:16-38 | the five copies and the patched checksum leave the PDU at the front of the caller's array and the rest of the array as it was, and return the PDU's length |
| `Pdu.ChecksumField` | helperfuncs.c:24-35 | bytes 4 and 5 of every PDU are the checksum, in the host's order, of the PDU with those bytes zero |
| `Pdu.SelfVerifies` | helperfuncs.c:33-35 | every PDU verifies on a host of either byte order, for every payload, number and flag |
| `Pdu.NumberRoundTrip` | rcopyCBuffer.c:59-68 | the receiver reads the number that the sender put through `htonl` |
| `ErrorChannel.ErrorDrop.constructor` | libcpe464/MsgEvents/errorDrop.cpp:9-12 | a fresh event drops everything |
| `ErrorChannel.ErrorDrop.SetDropSpecific` | libcpe464/MsgEvents/errorDrop.cpp:21-27 | then it drops the listed message numbers only |
| `ErrorChannel.ErrorDrop.Run` | libcpe464/MsgEvents/errorDrop.cpp:29-63 | 2 exactly when everything or this number is dropped, and 0 otherwise |
| `ErrorChannel.PacketManager.RunEvent` | libcpe464/MsgEvents/errorFlipBits.cpp:9-27 | a flip returns 1 and leaves what `FlipByte` does; a drop returns 2 exactly when it drops all or lists the number; a drop and an information event change no byte |
| `ErrorChannel.PacketManager.FlipByte` | libcpe464/MsgEvents/errorFlipBits.cpp:21-24 | the byte drawn is replaced by its exclusive or with 0xFF in the buffer, and every other byte stays |
| `ErrorChannel.FlipIsXor` | libcpe464/MsgEvents/errorFlipBits.cpp:24-24 | for every packet and place a flip is the exclusive or of that one byte with 0xFF, which differs from it, and a second flip there restores the packet |
| `ErrorChannel.PickExact` | libcpe464/PacketManager.cpp:163-163 | which draws pick event i of n: those r with i <= n * r < i + 1 |
| `ErrorChannel.PacketManager.RunMsgEvents` | libcpe464/PacketManager.cpp:100-130 | standard events run in order on the bytes the earlier ones left, and the first drop ends the list |
| `ErrorChannel.PacketManager.ProcessEvents` | libcpe464/PacketManager.cpp:132-189 | after them at most one random event runs, also on a packet already dropped, and a drop by either is a drop |
| `ErrorChannel.PacketManager.SendtoErr` | libcpe464/PacketManager.cpp:346-408 | the caller's buffer is untouched; the process exits exactly on a null buffer, no bytes or no address; otherwise the message number goes up by one, and from 0xFFFFFFFF to 0, and the result is the length for a dropped or completed send and the system's result otherwise |
| `ErrorChannel.StandardKeepsBytes` | libcpe464/PacketManager.cpp:111-127 | standard events without a flip never change a packet |
| `ErrorChannel.ChannelRefinement` | libcpe464/PacketManager.cpp:144-178 | a packet that verifies is dropped, arrives unchanged, or arrives so that it does not verify |
| `ErrorChannel.LostExactlyWhen` | libcpe464/PacketManager.cpp:132-189 | a send puts nothing on the network exactly when a standard event drops the message's number, or the one random event drawn does |
| `ErrorChannel.SentBytes` | libcpe464/PacketManager.cpp:132-189 | with any events at all, each byte of what is sent is inverted exactly when an odd number of the flips that run were drawn for it, the standard ones and the random one |
| `ErrorChannel.DamagedExactlyWhen` | libcpe464/PacketManager.cpp:158-178 | without standard flips, something other than the packet is put on the network exactly when no standard event drops its number, there are random events, the first draw is at most the error rate, and the event picked is a flip |
| `ErrorChannel.DamagedByte` | libcpe464/PacketManager.cpp:158-178 | it is then alone on the network, and differs from the packet in the one byte drawn, by exclusive or with 0xFF |
| `ErrorChannel.ProcessCode` | libcpe464/PacketManager.cpp:144-188 | when nothing drops the message the return code is 1 exactly for a flip, the random event's if one runs and otherwise any of the standard ones |
| `ErrorChannel.StandardFlipEscapes` | libcpe464/SettingsManager.cpp:237-243 | with a flip among the standard events, which the program leaves out, a packet can arrive changed and verify |
| `ErrorChannel.RunRefinement` | libcpe464/PacketManager.cpp:376-405 | over a whole run of sends each packet in turn is dropped, or reaches the network as it was, or with the same length and not verifying |
| `ErrorChannel.RunKeepsBytes` | libcpe464/PacketManager.cpp:376-405 | without flips among the standard and the random events nothing but packets that were sent reaches it |
| `ErrorChannel.RunCounts` | libcpe464/PacketManager.cpp:369-369 | a run of n sends adds n to the message number modulo 2^32 and changes nothing else of the settings |
| `ErrorChannel.DropListDelivery` | libcpe464/PacketManager.cpp:100-130 | with drop lists and counting events alone, exactly the `Survivors` arrive, unchanged and in order |
| `ErrorChannel.Survivors` | libcpe464/MsgEvents/errorDrop.cpp:37-62 | which sends those are, in order: from message number c, exactly the sends i, counted from 0, for which c + i + 1, modulo 2^32 if it wraps, is not listed |
| `ErrorChannel.DropListByNumber` | libcpe464/PacketManager.cpp:369-369 | from message number c, short of the wrap, send i of a run adds nothing to the network exactly when c + i + 1 is in the list of some drop event, and otherwise the packet |
| `WindowBuffer.WindowBuffer.InitWindow` | windowBuffer.c:28-57 | an empty open window |
| `WindowBuffer.WindowBuffer.StoreToWindowBuffer` | windowBuffer.c:60-76 | the packet goes to the slot of its number and current becomes the next number; nothing else changes |
| `WindowBuffer.WindowBuffer.RetrieveFromWindowBuffer` | windowBuffer.c:80-91 | bytes are copied only from a slot that holds the number, the slot's size is returned either way, and the window is unchanged |
| `WindowBuffer.WindowBuffer.RetrieveLowestPacket` | windowBuffer.c:94-96 | the same for the lowest number |
| `WindowBuffer.WindowBuffer.SlideWindow` | windowBuffer.c:112-119 | both ends move by the same 32-bit distance; slots and current do not |
| `WindowBuffer.StepRefinesMap` | windowBuffer.c:60-119 | a store at current while open, and a slide to a number sent, keep the slots equal to a map of the outstanding packets |
| `WindowBuffer.RunRefinesMap` | windowBuffer.c:60-119 | so does every run of them |
| `WindowBuffer.RetrieveOutstanding` | windowBuffer.c:80-91 | every outstanding packet comes back with the bytes and size it was stored with |
| `WindowBuffer.RetrieveAfterStore` | windowBuffer.c:60-91 | after a store its number gives its bytes on top of the caller's, any other number of the slot gives nothing but the size, and the other slots answer as before |
| `WindowBuffer.ClosedWhenFull` | windowBuffer.c:104-109 | the window is closed exactly when as many packets are outstanding as it has slots |
| `WindowBuffer.SlideIdentity` | windowBuffer.c:112-119 | after any RR the window starts at its number and keeps its width modulo 2^32, across wrap-around |
| `WindowBuffer.SlideKeepsOrder` | windowBuffer.c:112-119 | `slideWindow` does not look at current: the cursors stay in order exactly for numbers from current - size to current |
| `ReorderBuffer.ReorderBuffer.InitBuffer` | rcopyCBuffer.c:27-56 | no slot is valid and the lowest number is 0xFFFFFFFF |
| `ReorderBuffer.ReorderBuffer.StoreToBuffer` | rcopyCBuffer.c:85-102 | the packet takes the slot of its number, and the lowest number is lowered to it if it was higher |
| `ReorderBuffer.ReorderBuffer.RetrieveNextPacket` | rcopyCBuffer.c:106-136 | the packet in the lowest number's slot is returned and freed, and the scan leaves the least remaining number |
| `ReorderBuffer.LeastValid` | rcopyCBuffer.c:123-129 | the scan's result is no larger than any valid number seen, and is one of them or the sentinel |
| `ReorderBuffer.StoreContents` | rcopyCBuffer.c:85-96 | a store adds its packet and loses exactly the other numbers that share the slot |
| `ReorderBuffer.StoreConsistent` | rcopyCBuffer.c:98-101 | without such a number the lowest number stays the minimum, and nothing is lost |
| `ReorderBuffer.RetrieveConsistent` | rcopyCBuffer.c:106-136 | a retrieval returns and removes the packet with the least number, and leaves the new minimum |
| `ReorderBuffer.ScanFindsLeast` | rcopyCBuffer.c:125-129 | the scan finds the least number of the buffer, or the sentinel for an empty one |
| `ReorderBuffer.RunIsQueueRun` | rcopyCBuffer.c:85-136 | every run of stores without collisions and retrievals is a run of a minimum-first priority queue, with the same packets returned |
| `ReorderBuffer.RetrieveAsWrittenBreaksLowest` | rcopyCBuffer.c:130-131 | with the new minimum assigned to a local, the lowest number stays right exactly when the buffer was empty |
| `Rcopy.DataManagement.constructor` | buffmgmnt.c:27-34 | the machine starts in IN_ORDER with both counters 0 and an empty buffer and file |
| `Rcopy.DataManagement.CreateAck` | buffmgmnt.c:132-133 | an acknowledgement is a PDU with its number in network order as the payload |
| `Rcopy.DataManagement.InOrderState` | buffmgmnt.c:76-140 | a packet is checked, written, buffered or refused, and answered, as its number compares with expected |
| `Rcopy.DataManagement.BuffState` | buffmgmnt.c:143-182 | early packets are buffered without an answer, the expected one is written and starts a flush |
| `Rcopy.DataManagement.FlushState` | buffmgmnt.c:184-239 | one buffered packet is written, or the gap is reported, or the machine is in order again |
| `Rcopy.DataManagement.DataMngmntFSM` | buffmgmnt.c:32-74 | one call runs the step of the current state, and in FLUSH reads no packet |
| `Rcopy.ReceiveOutcome` | buffmgmnt.c:87-180 | in any state a data packet is written exactly when its number is expected; file, both counters, buffer, mode and answer for the three cases |
| `Rcopy.FlushOutcome` | buffmgmnt.c:192-236 | in any state a flush call writes and frees the slot of the lowest number exactly when expected is that number or highest; counters, mode and answers for the four cases |
| `Rcopy.EofEnds` | buffmgmnt.c:91-99 | in order a packet with flag 10 ends the download with its payload written and expected acknowledged with flag 34 |
| `Rcopy.EofFlushed` | buffmgmnt.c:195-214 | a buffered one ends it, without an answer, when it is the last to be flushed |
| `ClientRefinement.ValidFlagMeansBuffered` | rcopyCBuffer.c:76-82 | `isPacketValid` compares no packet numbers, and is still true of expected exactly when packet expected is buffered |
| `ClientRefinement.ArrivalCollidesWithNothing` | rcopyCBuffer.c:89-96 | a packet beyond expected and within a window of it shares a slot with no other buffered packet |
| `ClientRefinement.ReceiveRefines` | buffmgmnt.c:76-182 | a data packet within the window changes mode, counters, buffered set, file and answers as the protocol says |
| `ClientRefinement.FlushRetrieves` | rcopyCBuffer.c:106-118 | while flushing, a buffered expected packet is the one that is retrieved |
| `ClientRefinement.FlushRefines` | buffmgmnt.c:184-239 | a flush step takes exactly packet expected out and writes its payload, or reports a gap |
| `ClientRefinement.FlushKeepsGood` | buffmgmnt.c:195-236 | a flush step keeps the machine's invariant, never falls through, and comes closer to highest while flushing goes on |
| `ClientRefinement.FlushAllWritesRun` | buffmgmnt.c:184-239 | flushing ends, having written exactly the longest run of consecutive buffered packets from expected: in IN_ORDER with an empty buffer and an RR, or in BUFFER behind the first gap with its SREJ and RR |
| `Server.ServerControl.constructor` | server.c:162-169 | the server starts with an empty window at the start of the file |
| `Server.ServerControl.SendNextChunk` | server.c:113-127 | the next chunk is read, built, stored and sent; a read of no bytes sends the previous PDU again |
| `Server.ServerControl.ResendLowestPacket` | server.c:198-201 | what the window holds for the lowest number is sent from the reused buffer; nothing else changes |
| `Server.ServerControl.ProcessRRsAndSREJs` | server.c:211-250 | a packet that verifies slides the window, or has its number rebuilt with the resent flag, or ends the transfer; any other is ignored |
| `Server.SendNextFacts` | server.c:113-127 | an open window sends the next bytes of the file as packet current with flag 16, which verifies on either host, and puts it into current's slot; at the end of the file the last PDU goes out again |
| `Server.ResendLowestSends` | server.c:198-201 | a resend is the packet in lowest's slot, and for a slot with another packet as many bytes of what the resend buffer held |
| `Server.OnlyRRsAndSREJs` | server.c:225-246 | only packets that verify with flag 5 or 6 have an effect, one on the window alone and the other only sends |
| `Server.RrSlides` | server.c:237-240 | for every number, an RR in network order makes it the lowest and keeps the width modulo 2^32 |
| `Server.SrejAnswer` | server.c:241-246 | an SREJ is answered with a PDU that verifies, has its number and flag 17, and the chunk of its slot, or as many zeros when the slot has another packet |
| `Server.Read` | server.c:115-115 | a read returns the bytes from the position on, as many as were asked for or all that are left |
| `ServerLoop.ServerWindowControl` | server.c:162-209 | for all poll results and arrivals, what the loop leaves, sends, polls and reads is what its turns give one by one; it stops at its head with the whole file read, or at a read with nothing to read. Which turns the poll results lead to is told by the next three rows |
| `ServerLoop.HeadPolls` | server.c:172-184 | at its head the loop polls nothing: it stops at the end of the file, waits when current is highest, and otherwise sends, which ends the file exactly when fewer than a chunk's bytes are left |
| `ServerLoop.DrainPolls` | server.c:187-194 | after a send, exactly the packets of the polls that find one are handled, up to the first poll that finds none; then the loop goes on, to the wait of a closed window if current is highest; with no packet left for a poll that found one, it blocks |
| `ServerLoop.WaitPolls` | server.c:195-205 | at a closed window just entered, j polls that find nothing, with j = 10 or followed by one that finds a packet, make exactly j resends; the next packet is then handled, or the loop blocks if there is none |
| `ServerLoop.Decide` | server.c:172-206 | a turn is taken exactly while the loop has not ended and no read blocks, and it is one that the loop's place and the window allow; it is a resend exactly at a closed window, with fewer than ten made and no packet reported by this turn's own poll; what is handled is the next packet given |
| `ServerLoop.ExecIsRun` | server.c:172-206 | every execution is a legal run of turns, and handles the packets given to it in order |
| `ServerLoop.NoElevenResends` | server.c:195-203 | in a legal run of turns no eleven in a row are resends |
| `LoopRuns.ScheduleIsRun` | server.c:172-206 | the loop's turns interleaved in any way with client steps and losses are a run of the system, so every state along them is reached |
| `LoopRuns.RunIsSchedule` | server.c:172-206 | and every run of the system is one of those |
| `LoopRuns.ScheduleRunsLoop` | server.c:172-206 | in which the server is, at every point, where its loop is after the turns taken so far |
| `LoopRuns.ExecutionIsReached` | server.c:162-209 | so an execution of the loop on what the channel hands it ends in a reached state |
| `Protocol.NextKeepsInv` | server.c:172-207 | every step, with the server's loop at the place where its code has it, keeps the invariant that ties both ends to what is in flight, and moves no cursor back |
| `Protocol.AckIsAnswerable` | server.c:237-246 | the next acknowledgement carries a number from lowest to current, and for an SREJ one with a later chunk sent |
| `Protocol.ArrivalFits` | buffmgmnt.c:157-161 | the next data number is within a window of expected, and beyond expected it is not below highest |
| `Protocol.FlushKeepsClientInv` | buffmgmnt.c:195-234 | IN_ORDER means nothing buffered, BUFFER means expected missing and highest present, FLUSH means everything buffered lies from expected to highest; flushing keeps this and comes closer to highest |
| `EndToEnd.DataPduFacts` | server.c:121-124 | the PDU of a chunk verifies and is read back with its number and its chunk on both hosts |
| `EndToEnd.AckPduFacts` | server.c:223-229 | an acknowledgement verifies at the server and is read back with its flag and number |
| `EndToEnd.StepSimulates` | buffmgmnt.c:32-239 | every step of the system over bytes, slots and damaged packets is a step of the protocol over numbers |
| `EndToEnd.StepKeeps` | server.c:162-250 | and it keeps both invariants |
| `EndToEnd.EndToEndSafety` | buffmgmnt.c:76-239 | in every reachable state the client's file is the server's up to expected chunks, each once and in order, and complete exactly when all are taken |
| `EndToEnd.WindowAgreement` | windowBuffer.c:112-119 | in every reachable state acknowledgements in flight carry numbers from lowest to expected in nondecreasing order, none rejects a number twice and none the expected one unless the client waits for it; data in flight is within a window of expected, and beyond expected it is in nondecreasing order |
| `EndToEnd.ServerWindowHolds` | windowBuffer.c:60-109 | in every reachable state the cursors are in order around expected and every outstanding chunk's PDU is in its slot |
| `EndToEnd.AcksAreAnswerable` | server.c:236-246 | in every reachable state the next RR moves the window forward to its number, and the next SREJ is answered with a PDU of exactly the chunk it names |
| `EndToEnd.TimeoutsAreAnswerable` | server.c:194-203 | in every reachable state a wait has the window closed, and a timeout of a closed window resends the lowest chunk's PDU with its bytes and size as stored |
| `EndToEnd.ArrivalsKeepBuffered` | buffmgmnt.c:157-161 | in every reachable state what verifies on arrival is a chunk within the window, and storing it loses no buffered packet |
| `EndToEnd.CursorsAdvance` | buffmgmnt.c:127-127 | no step of any run takes back lowest, current, expected, the file, or highest, which is assigned without a comparison |
| `EndToEnd.MachineInvariant` | buffmgmnt.c:36-67 | in every reachable state the state machine's invariant holds, `isPacketValid` is right about expected, and a flush step always does something |
| `Settled.WokenFacts` | rcopy.c:228-230 | woken by a packet, a client in FLUSH writes everything up to the first gap and asks for that chunk, or everything up to highest: it never stops half way |
| `Settled.OldWakes` | rcopy.c:228-230 | an old chunk is enough to wake it, loses nothing, and is answered with an RR for what is expected then |
| `Decline.WakeHelps` | rcopy.c:228-230 | waking the client never loses a transfer |
| `Decline.AckSuffers` | server.c:225-247 | losing or damaging an acknowledgement never saves one |
| `Doom.QuietRevivesNothing` | server.c:172-206 | no turn of the server from a quiet state saves a transfer, whether what it sends is lost, damaged or arrives |
| `Doom.CompletableTurn` | server.c:194-206 | nor does a turn from a last wait whose resends are used up, where only a read is left |
| `Doom.QuietMovesNothing` | server.c:172-206 | and none gets the client on that could not get on before |
| `Doom.NeverRevived` | server.c:172-207 | no step of the protocol makes a state alive that is not |
| `Doom.NeverMoves` | server.c:172-207 | and none moves the client on from a state that does not move |
| `Progress.MayGo` | rcopy.c:228-230 | what may become of the packets on their way can be brought about, step by step, with a packet ready for every flush step |
| `Completion.EndCompletes` | server.c:186-206 | at the end of the file, every state that is alive has a run that completes the transfer |
| `Completion.TailCompletes` | server.c:172-192 | so has every state whose window is not closed again before the end, sending no more than is left to send |
| `Middle.Opens` | server.c:194-206 | from a closed window before that, a run opens the window and keeps the state alive |
| `Middle.QuietCompletes` | server.c:172-206 | so every quiet state from which the transfer can be completed has a run that completes it |
| `Advance.MovesAdvance` | server.c:172-207 | every state that moves has a run, within the ten resends of each wait, that gets the client another chunk |
| `Middle.AliveCompletes` | server.c:172-207 | every state that is alive has one that gets it all of them |
| `Losses.StillAlive` | server.c:172-192 | while the server neither waits nor has read the whole file, a file of one chunk or a window of less than three keeps every state alive |
| `Lifting.LiftMove` | server.c:172-207 | every move of such a run can be made by the system over bytes, when the error libraries can let the next packets through |
| `Lifting.RunLifts` | server.c:172-207 | so the system can make the whole run, when they can let twice as many packets through as it has moves |
| `Continuation.ContinuationRevivesNothing` | server.c:172-207 | no continuation of a run of the system revives a transfer or moves one that does not move, whatever the error libraries do |
| `ErrorChannel.PassesExactly` | libcpe464/PacketManager.cpp:132-189 | some draws put a message on the network unchanged exactly when no standard event drops its number and the random events can be kept off it |
| `ErrorChannel.PassedListIsClear` | libcpe464/MsgEvents/errorDrop.cpp:37-62 | drop lists with no number above the message counter let the next messages through, until the counter wraps round |
| `ErrorChannel.RunPasses` | libcpe464/PacketManager.cpp:346-408 | with settings that can let the next messages through, some draws put a whole run of sends on the network, unchanged and in order |
| `Delivery.CanComplete` | rcopy.c:228-230 | from a reached state some continuation completes the transfer if and only if the state is alive |
| `Delivery.CompletesWithin` | server.c:162-209 | the "if" for libraries that can let a certain number of messages through, which depends on the protocol state alone |
| `Delivery.CompletesPastLists` | libcpe464/MsgEvents/errorDrop.cpp:37-62 | such as those with drop lists whose numbers their counters have passed |
| `Delivery.CanAdvance` | rcopy.c:228-230 | and some continuation gets the client another chunk if and only if it moves |
| `Delivery.Lost` | server.c:162-209 | the "only if" of both, for all error libraries |
| `Delivery.EveryTransferCanComplete` | server.c:162-209 | every transfer can be completed from its start |
| `Delivery.TransferCompletes` | server.c:162-250 | every configuration has a run after which the client has the whole file and everything is acknowledged |
| `Delivery.ResendsRunOut` | server.c:194-205 | with a window no larger than the file there is a run in which everything sent is lost, the ten resends are made, and the server blocks: nothing ever moves again |
| `Delivery.FileEndsEarly` | server.c:172-172 | with a larger one there is a run in which everything is lost and the loop ends without a resend |
| `Delivery.DoomedReachable` | server.c:172-205 | so a state that nothing moves again can be reached if and only if the file is not empty |
| `Delivery.FlushNeverRuns` | rcopy.c:228-230 | with a window of two there is a run after which the client has everything sent so far and is in FLUSH, the server has made its ten resends, nothing is on its way, and no step at all is possible |
| `Delivery.LoopLeavesFlush` | server.c:172-172 | with a larger window and a last chunk that is not full there is one after which the client has the whole file, the last chunk still buffered, and the server has left its loop |
| `Delivery.LostRunningReachable` | server.c:172-192 | and one that is lost while the server neither waits nor has read the whole file if and only if the file has at least two chunks and the window three places |
| `Delivery.MuteServer` | libcpe464/PacketManager.cpp:144-178 | when the server's error library can let no message through, no run gets the client a byte |
| `Delivery.FlushReachable` | buffmgmnt.c:166-170 | when the SREJ for a lost first chunk gets through, the resent chunk takes the client to FLUSH, so the results about flushing are about states that occur |
| `FilenamePacket.CreateFilenamePacket` | rcopy.c:155-177 | the four copies and `createPDU` leave the filename packet with both numbers in network order |
| `FilenamePacket.CreateLivePacket` | rcopy.c:122-128 | the encoder in use leaves them in host order, and sends as many bytes as the whole name needs |
| `FilenamePacket.ParseFilenamePacket` | server.c:130-149 | the decoder reads name, buffer size and window size at the places the length byte gives, and the name up to its first zero byte |
| `FilenamePacket.Decodes` | server.c:137-146 | a server of either byte order decodes both numbers, and the name up to its length modulo 256; the packet verifies |
| `FilenamePacket.RoundTrip` | rcopy.c:155-177 | so the request is decoded as it was made exactly for names of at most 255 bytes |
| `FilenamePacket.LiveDecodes` | rcopy.c:145-153 | from the encoder in use a little-endian client's numbers are decoded byte-reversed |
| `FilenamePacket.LiveRoundTrip` | rcopy.c:145-153 | so that one round-trips exactly for such names from a big-endian client, or with numbers that read the same both ways |
| `FilenamePacket.RequestLayout` | rcopy.c:122-128 | both encoders use packet number 0, flag 8 and the name's length modulo 256; the one in use also sends a zero for every byte of the name beyond that |
| `FilenamePacket.ParseReads` | server.c:137-149 | in any packet the name is what comes before the first zero byte, if any, of as many bytes as the length byte says, and both numbers are in network order |
| `FilenameExchange.VerifyFilename` | rcopy.c:235-244 | -1 for anything that does not verify or has another flag, and the status byte otherwise |
| `FilenameExchange.FilenameState` | rcopy.c:179-215 | the retry loop gives the result of its turns one by one, and so meets the conditions of `Answers`, which mention no turn: with r resends the first r + 1 poll results have been used, in order (nine after a timeout), and r is the number of those that report no packet plus the number of packets read that say nothing |
| `FilenameExchange.ExchangeAnswers` | rcopy.c:187-214 | those conditions hold of that result and of no other, for all poll results and all packets |
| `FilenameExchange.FirstPollAnswered` | rcopy.c:187-211 | if poll result j < 9 is the first to report a packet and that packet has status 1 or 0, the answer is taken or the refusal reported after j resends and one read |
| `FilenameExchange.NoPollAnswered` | rcopy.c:187-214 | if nine poll results report nothing, nine resends are made and nothing is read |
| `FilenameExchange.WholeStatus` | rcopy.c:235-244 | a packet of eight bytes or more is judged on its own, whatever was in the buffer |
| `FilenameExchange.AnyStatus` | rcopy.c:185-193 | a packet of any length is summed by itself, with flag and status byte from the last packet that was long enough to have them, or zero |
| `FilenameExchange.LatestIs` | rcopy.c:185-190 | which packet that is: the last one long enough, since a shorter one leaves the rest of the buffer as it was |
| `FilenameExchange.FirstAnswerDecides` | rcopy.c:187-214 | the first packet with status 1 or 0 decides, whatever its length, no more than nine resends are made, and only the ninth ends the wait |
| `FilenameExchange.BlocksExactlyWhen` | rcopy.c:187-211 | some poll results make the loop block on given packets, of any lengths, if and only if none of them has status 0 or 1 and fewer than nine say nothing: a larger status byte is read without costing a resend |
| `FilenameExchange.TimeoutValue` | rcopy.c:193-200 | the loop takes a timeout to be 0 and `pollCall` returns -1, and it makes no difference |
| `AsWritten.ForgottenWrites` | buffmgmnt.c:33-34 | with both counters forgotten a packet is written as it should be exactly when it is empty or 0 and expected agree about it |
| `AsWritten.ForgottenAcks` | buffmgmnt.c:33-34 | and no acknowledgement carries a number above 1 |
| `AsWritten.ForgottenRepeats` | buffmgmnt.c:33-34 | and a client that gets packets 0, 1 and 0 writes packet 0 twice |
| `AsWritten.CodesAgree` | buffmgmnt.c:38-45 | the return codes lead to the right state exactly for damaged packets and for data not beyond expected |
| `AsWritten.MisreadNeverFlushes` | buffmgmnt.c:38-45 | with those codes no run of data packets leaves IN_ORDER, and without the expected one nothing is written |
| `AsWritten.StaleFirst` | rcopyCBuffer.c:130-131 | with the stale minimum the first retrieval of a flush is right |
| `AsWritten.StaleOnlyLowest` | rcopyCBuffer.c:130-131 | in any state a flush call with the stale minimum differs in nothing but the lowest number it leaves |
| `AsWritten.StaleStalls` | buffmgmnt.c:215-236 | the next flush step changes nothing exactly when the next packet is buffered, with more to come after it |
| `AsWritten.StaleRepeats` | buffmgmnt.c:195-204 | and when the next packet is the last one, the packet before it is written again |
| `AsWritten.HostOrderNumber` | server.c:176-176 | a number not put through `htonl` is read byte-reversed from a little-endian host, and right exactly when that makes no difference |
| `AsWritten.HostOrderStore` | windowBuffer.c:60-76 | and the window then moves current by one exactly for such numbers |
| `AsWritten.CutOffVerifies` | server.c:184-184 | a PDU cut off anywhere is taken for an intact one exactly when something other than zeros is left and the lost bytes, as the sum pairs them, add up to a multiple of 65535 |
| `AsWritten.ShortAnswerVerifies` | server.c:242-245 | so the answer to an SREJ, of which eleven bytes are sent, arrives so as to verify exactly when the rest of the chunk does that |
| `AsWritten.OverlongVerifies` | server.c:184-184 | and one sent with bytes of an earlier PDU behind it, as a short last chunk is, exactly when those do |
| `AsWritten.MisplacedFlagIgnored` | buffmgmnt.c:94-122 | the server ignores what carries flag 1 or 4 |

## Left out

- Sockets, `poll`, `fork`, DNS, memory allocation and command-line parsing; poll results and arrivals are inputs or free choices.
- Standard I/O: `fread` is a slice of a byte sequence and `fwrite` appends to one; printing is not modelled.
- The end of a transfer: the server sends no end-of-file packet and acts on no EOF ACK, so no run reaches the client's branches for flag 10; `Rcopy.EofEnds` and `EofFlushed` say what single calls do.
- The server's answer to the filename packet, which it never sends; `FilenameExchange` takes any packets as answers.
- The client's ten seconds: it calls its machine only while a packet is ready, as `recvDataPackets` does, but it does not give up when none comes.
- ServerLoop.ServerWindowControl: the packets handled are those it is given, so that its loop ends is proved for finitely many arrivals; a poll that reports a packet when none is left to read counts as blocking.
- Delivery.CanComplete: where acknowledgements may be damaged, it is the network that may do it, not only the client's error library; for a network that only loses, with a client's library that flips bits, the "if" is not claimed. For error libraries that can let some messages through and others not, `Delivery.Lost` and `Delivery.CompletesWithin` hold; which other states can go on then depends on the numbers listed.
- Delivery.CanAdvance: that a continuation exists is not that it happens; liveness under unbounded loss and real time is not modelled.
- Channels are first in, first out. The error library reorders and duplicates nothing; a network that does is outside the model.
- Packets of fewer than seven bytes at the client, and numbers whose slot holds fewer than seven bytes at the server: the program's lengths become negative there. No run of the system contains either.
- AsWritten.MisplacedFlagIgnored: a null data pointer passed to `createPDU` (buffmgmnt.c:94, 111, 121) is undefined behaviour; the lemma is about what would arrive if the copy did anything at all.
- FilenamePacket.LiveRoundTrip: names of more than 1394 bytes do not fit the arrays of rcopy.c:122-123 and are excluded, since the program would write past them.
- EndToEnd.EndToEndSafety: packet numbers do not wrap around; only `WindowBuffer.SlideIdentity` speaks about wrap-around.
- `drand48`, and the single-precision rounding of its draws and of the error rate: draws are arbitrary reals from 0 up to 1.
- `SettingsManager`, `infoSeqNo` and the rest of the error library's configuration, counting and printing, and its connection-mode `send_Err`.
