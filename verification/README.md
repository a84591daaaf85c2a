# Networking and operating-system lab programs, verified

The repository is a collection of lab programs around sockets, signals, semaphores, message
queues, raw packets and device drivers. This project models the parts of it that promise
something, and proves what they promise for all inputs, all interleavings and all runs.

**Codes.** `Bits`, `Hamming`, `HammingGen`, `HammingCheck` and `HammingVector` hold the
single-error-correcting code: what a codeword is, the encoder that fills a string, the program
that recomputes the parities and flips the bit they name, and a second encoder over integer
vectors. `Bits` gives `pow`, `log2`, `&` and `(n & (n-1)) == 0` exact integer meanings; every
value the programs use is exact as a double.

**Checksums.** `InternetChecksum` holds the four checksum routines (RFC 1071, section 1) and
`Headers` the two senders that fill an IPv4 header (RFC 791, section 3.1) in place.

**Protocols.** Each is a state machine: a state, one step function per process (or one per kind
of step), runs as arbitrary schedules, and an invariant that every step keeps. `TollGate` is the
toll plaza, `Ess` the hand-over of one connection among clients, `GroupSignal` and `RingSignal`
the two signal exercises (both among the `FourProcesses`, over the `TypedQueue` message queue),
`SharedCounter` and `SharedFile` the two semaphore hand-offs, `Wire` and `Rpc` the remote calls
through two stubs. For each of them a measure bounds the steps a run can take, new vehicles, new
calls and timeouts apart, so what holds of stuck states holds at the end of every run that goes
on as long as it can. For the signal exercises, the shared counter and the remote calls, runs
that reach each of the ends are exhibited.

**Text.** `HexDump` holds the streaming packet dump and its text-only sibling, `Decimal` the
driver's `itoa`, `reverse` and the two `atoi`, `MergeFiles` the merge of two files of numbers.
`Machine` has the bytes and 32-bit integers they share, `Options` a value that may be missing.

Sequential code that works step by step is a method with the program's loops over arrays or
strings, proved against a specification function; the properties are lemmas about that function.

Some promises do not hold of the code as it is. For those the exact condition is proved:

* The two Hamming encoders agree on every message but the empty one (`EmptyMessageDiffers`).
* The Hamming checker can index past its string exactly on words whose length is not one less
  than a power of two (`OutOfRangeExactly`); one flipped bit never makes it do so.
* Every buffer of n bytes gets its checksum from the routine with the signed accumulator exactly
  up to n = 65537, from the one with the unsigned accumulator up to 131074 (`SignedExactly`,
  `UnsignedExactly`). The one with 64 bits folds twice, which is enough up to 65538 words
  (`WordsExactly`).
* A checksum misses the change of one aligned word exactly when 0000 is exchanged with FFFF and
  the rest is not all zero (`WordChangeDetected`).
* The shared-file turns are exclusive only if the named semaphores are left at 0, or the file is
  shorter than one chunk (`ExclusiveExactly`); no program resets them. A run leaves sem2 at 1 if
  the end of its file falls into the server's turn and sem1 otherwise, which settles for which
  files the next run is exclusive (`NextRunExclusive`).
* The manager of the toll plaza can count too little: with a gate at all, two approvals of a kind
  can count as one (`LossExactly`); when a count is exact is `CountExactly`.
* The shared counter's final y depends on the schedule: x - 1 is always possible, x + 1 exactly
  when the limit is at least 2 (`OutcomesExactly`).
* The ring can stop early: a signal handled between `kill` and `pause` is missed. That is the
  only way to stop early (`EndStates`), and it can happen exactly when there is a round at all
  (`EarlyStopExactly`); the normal end can be reached for every number of rounds.
* In the group exercise a signal can fail a receive, with the queue still there, exactly when P3
  or P4 is in the leader's group (`FailureExactly`), and two SIGUSR2 can become one as soon as
  anybody is in it (`MergeExactly`). `setpgid` refuses to move them there; they are in it if they
  were started so, for example in one pipeline.
* An RPC result is the true one exactly when that lies in 0..65535 (`ResultsBelongToCalls`). A
  call can still be answered exactly as long as the client stub has not timed out on it
  (`AnswerableExactly`), and every call can go either way (`BothEndsOccur`).
* The unsigned `atoi` inverts `itoa` from 0 up, and on a single negative number
  (`PlainRoundTripExactly`). Every intermediate result fits an int only up to 2^31 - 49
  (`NoOverflowExactly`). The text of the least int is not a numeral (`TextIsNumeral`), yet the
  signed `atoi` reads it back.
* At the end of a file `readint` looks at a character it never set. Reading a file until -1
  gives exactly its numbers, whatever that character is, exactly when the file has a newline or
  more spaces after the space that ends its last number (`ReadsBackExactly`); "7 " is a file
  that fails (`SomeFileFails`). Every file the program writes is of the good kind
  (`WrittenHolds`).

The comment at 12-2-22/HammingCode/gen.cpp:22 says that the powers of two are filled with the
message; the code fills the other positions, and so does the model.

## Model

| member | source | states |
|---|---|---|
| Bits.PowerTest | 12-2-22/HammingCode/gen.cpp:25 | `(n & (n-1)) == 0` holds exactly of the powers of two |
| Bits.AndPow2 | 12-2-22/HammingCode/gen.cpp:34 | masking with 2^k tests binary digit k, for any n |
| Bits.PowersBracket | 12-2-22/HammingCode/gen.cpp:24-25 | the number of power-of-two positions up to n is the binary length of n |
| Hamming.CountOnes | 12-2-22/HammingCode/check.cpp:11-14 | the inner loop counts the '1's whose position shares a bit with the mask |
| Hamming.FlipToggles | 12-2-22/HammingCode/check.cpp:11-15 | flipping position p toggles parity 2^k exactly when p has binary digit k |
| Hamming.SyndromeOfFlip | 12-2-22/HammingCode/check.cpp:8-19 | the failing parities of a codeword with one flipped bit add up to the flipped position |
| Hamming.SyndromeZero | 12-2-22/HammingCode/check.cpp:21-23 | the sum is 0 exactly on codewords |
| Hamming.MinimumDistance | 12-2-22/HammingCode/check.cpp:7-30 | two different codewords of one length differ in at least three positions |
| Hamming.DoubleErrorDetected | 12-2-22/HammingCode/check.cpp:8-23 | two flips never give sum 0 |
| HammingGen.HammingLength | 12-2-22/HammingCode/gen.cpp:6-15 | the loop ends at the least r with 2^r >= l + r + 1; the word has l positions that are not powers of two, and no shorter word has |
| HammingGen.LayoutExact | 12-2-22/HammingCode/gen.cpp:6-28 | with that r, exactly r positions are powers of two and exactly l are left for the message |
| HammingGen.DataInRange | 12-2-22/HammingCode/gen.cpp:24-27 | every `b[idx++]` reads inside the message |
| HammingGen.CheckInRange | 12-2-22/HammingCode/gen.cpp:30-37 | every parity write lands inside the word |
| HammingGen.PlaceMessage | 12-2-22/HammingCode/gen.cpp:23-28 | the fill loop leaves the message in order at the non-powers and '-' at the powers |
| HammingGen.HammingCodeGen | 12-2-22/HammingCode/gen.cpp:17-40 | the in-place encoder computes `Encode`: parities taken over the word with no parity set yet, in a word no longer than the message needs |
| HammingGen.ParitiesIndependent | 12-2-22/HammingCode/gen.cpp:30-38 | parities already written do not change the count of a later parity |
| HammingGen.EncodeIsCodeword | 12-2-22/HammingCode/gen.cpp:17-40 | for every binary message the result is a codeword: no '-' is left and all parities are even |
| HammingGen.MessageOfEncode | 12-2-22/HammingCode/gen.cpp:23-39 | reading the non-power positions of the result gives the message back |
| HammingGen.CodewordIsEncode | 12-2-22/HammingCode/gen.cpp:17-40 | every codeword of an encoder length is the encoding of its own message |
| HammingCheck.CheckAndCorrect | 12-2-22/HammingCode/check.cpp:7-30 | the program's verdict and word, for every string, including a sum past the end of the word |
| HammingCheck.NoErrorAccepted | 12-2-22/HammingCode/check.cpp:21-23 | an undamaged encoding is returned unchanged as clean |
| HammingCheck.SingleErrorCorrected | 12-2-22/HammingCode/check.cpp:7-30 | for every message and every flipped position, that position is named and the encoding restored |
| HammingCheck.EncodingsFarApart | 12-2-22/HammingCode/gen.cpp:17-40 | encodings of two messages of one length differ in at least three positions |
| HammingCheck.SyndromeDigits | 12-2-22/HammingCode/check.cpp:15-17 | the sum never carries: its digit k says whether parity 2^k fails |
| HammingCheck.CorrectionIsCodeword | 12-2-22/HammingCode/check.cpp:26-28 | whatever binary word comes in, a correction always yields a codeword |
| HammingCheck.CheckIsNearest | 12-2-22/HammingCode/check.cpp:7-30 | on every binary word: clean iff a codeword, corrected iff a codeword is one flip away |
| HammingCheck.DoubleErrorNeverRepaired | 12-2-22/HammingCode/check.cpp:21-28 | two flips are never reported clean and never restored |
| HammingCheck.OutOfRangeExactly | 12-2-22/HammingCode/check.cpp:26-27 | for each length n: some binary word makes the flip index past the string iff n >= 1 and n + 1 is no power of two |
| HammingVector.FindHammingCode | RPC/RPC-187169_march31/187169_march31/hammingcode/hamming.cpp:91-108 | searching r from 1, the vector encoder gives the string encoder's word for every nonempty message, no longer than the message needs |
| HammingVector.GenerateHammingCode | RPC/RPC-187169_march31/187169_march31/hammingcode/hamming.cpp:4-87 | marks, message and parities end up as `VectorCode` |
| HammingVector.MarkParities | RPC/RPC-187169_march31/187169_march31/hammingcode/hamming.cpp:10-15 | the -1 marks are exactly at the powers of two |
| HammingVector.WriteParities | RPC/RPC-187169_march31/187169_march31/hammingcode/hamming.cpp:37-81 | every mark is replaced by its parity, nothing else changes |
| HammingVector.ScanParity | RPC/RPC-187169_march31/187169_march31/hammingcode/hamming.cpp:46-66 | the scan from just after the parity's own position counts what a full scan counts |
| HammingVector.NothingBelow | RPC/RPC-187169_march31/187169_march31/hammingcode/hamming.cpp:50-56 | no position below 2^x has digit x, which is why the scan may start late |
| HammingVector.LogOfPower | RPC/RPC-187169_march31/187169_march31/hammingcode/hamming.cpp:46 | `log2` of a marked position is the exponent |
| HammingVector.VectorCodeIsEncode | RPC/RPC-187169_march31/187169_march31/hammingcode/hamming.cpp:4-87 | the two encoders agree bit for bit on every nonempty message |
| HammingVector.EmptyMessageDiffers | RPC/RPC-187169_march31/187169_march31/hammingcode/hamming.cpp:94-103 | on the empty message they do not: one check bit against none |
| InternetChecksum.FoldIsResidue | ARP/spoofing/spoofer.c:351-352 | folding until done gives the residue modulo 65535, with 65535 for 0 unless the sum is 0 |
| InternetChecksum.TwoFoldsSuffice | 02-04-22_print_tcp_header/s.c:52-56 | below 2^32 the two fixed folds equal the loop |
| InternetChecksum.StoredChecksumVerifies | endlab/rpc.h:61-80 | a buffer with its checksum stored in a zeroed aligned field sums to 0 |
| InternetChecksum.WordChangeDetected | endlab/rpc.h:61-80 | exactly which changes of one word leave the checksum the same |
| InternetChecksum.WordOrderIrrelevant | endlab/rpc.h:66-70 | buffers whose words are permutations of each other have the same checksum |
| InternetChecksum.ByteOrderIrrelevant | 02-04-22_print_tcp_header/s.c:41-44 | with the bytes of every word exchanged the checksum comes out exchanged, so summing native words is right on either kind of host |
| InternetChecksum.OddPadded | endlab/rpc.h:71-75 | an odd last byte counts as if a zero byte followed it |
| InternetChecksum.FoldUntilDone | ARP/spoofing/spoofer.c:350-354 | the loop ends, and leaves the complement of the folded sum |
| InternetChecksum.SignedAccumulatorBound | endlab/rpc.h:62-70 | a signed 32-bit sum holds every buffer of n bytes iff n <= 65537 |
| InternetChecksum.UnsignedAccumulatorBound | 02-04-22_print_tcp_header/s.c:33-50 | an unsigned one iff n <= 131074 |
| InternetChecksum.SignedExactly | endlab/rpc.h:61-80 | with the signed accumulator every buffer of n bytes gets its checksum iff n <= 65537 |
| InternetChecksum.UnsignedExactly | 02-04-22_print_tcp_header/s.c:31-57 | with the unsigned one iff n <= 131074 |
| InternetChecksum.WordsExactly | Functions/IPHeader.c:13-20 | with 64 bits and two folds every buffer of n words iff n <= 65538 |
| InternetChecksum.InCksum | endlab/rpc.h:61-80 | the loop that wraps at every addition answers the two folds of the wrapped sum, at any length, odd byte included; up to 65537 bytes that is the checksum |
| InternetChecksum.CsumBytes | 02-04-22_print_tcp_header/s.c:31-57 | the same for the unsigned accumulator, up to 131074 bytes |
| InternetChecksum.CsumWords | Functions/IPHeader.c:13-20 | the same for the 64-bit one that counts words, up to 65538 words |
| InternetChecksum.CalculateChecksum | ARP/spoofing/spoofer.c:341-355 | so does the fold-until-done form, on any size |
| Headers.SealedVerifies | Functions/IPHeader.c:49-61 | a header with its checksum filled in recomputes to 0 |
| Headers.ZeroTailIgnored | 02-04-22_print_tcp_header/s.c:116-124 | a length beyond the header is harmless while the rest is zero |
| Headers.IdFieldIsZero | 02-04-22_print_tcp_header/s.c:117 | `htonl(54321)` cut to 16 bits is 0, and so is the window field |
| Headers.CopyString | 02-04-22_print_tcp_header/s.c:143 | the copy writes the payload and its terminator and nothing else |
| Headers.WriteIpHeader | 02-04-22_print_tcp_header/s.c:112-123 | the field writes produce the 20 header bytes, each field at its offset, source before destination, and leave the rest zero |
| Headers.WriteCheck | 02-04-22_print_tcp_header/s.c:124 | the checksum store seals the header and changes nothing beyond it |
| Headers.SendPacket | 02-04-22_print_tcp_header/s.c:94-148 | for every payload that fits, the packet sent has a header that verifies, the SYN header and the payload; a receiver reads, by offset, version 4, the packet's length, lifetime 255, protocol 6, 1.2.3.4 to 127.0.0.1, ports 51721 and 10001, SYN alone, and 0 for identification, numbers and window |
| Headers.SendMessage | Functions/IPHeader.c:42-68 | for every payload that fits, the datagram sent has a header that verifies, the payload and zeros; a receiver reads, by offset, version 4, the length, lifetime 255, the protocol given, 192.168.192.140 to 192.168.192.118, and identification 0 |
| SharedCounter.NeverBothWriting | 12-1-22/q4/p1.c:40-66 | in no run are both processes between reading one cell and posting |
| SharedCounter.NoDeadlock | 12-1-22/q4/p1.c:40-66 | every unfinished run can go on |
| SharedCounter.FuelFalls | 12-1-22/q4/p2.c:40-63 | every step uses up a bounded measure, so every run ends |
| SharedCounter.RunsEnd | 12-1-22/q4/p2.c:40-63 | no run takes more effective steps than the measure allows at the start |
| SharedCounter.FinalValues | 12-1-22/q4/p1.c:40-66 | the final x is the least even number that is >= 2 and >= the limit, y is x - 1, or x + 1 if the limit is at least 2 |
| SharedCounter.OutcomesExactly | 12-1-22/q4/p2.c:40-63 | for every limit: y == x - 1 is a possible end, y == x + 1 is one iff limit >= 2 |
| SharedCounter.RunToEnd | 12-1-22/q4/p1.c:40-66 | any scheduler of enabled processes reaches those final values |
| SharedFile.AlternatingRead | 10-2-22/pass_fd/server.c:101-116 | in every run the readers exclude each other and what was read is the file, five characters to each in turn |
| SharedFile.EndsAtEof | 10-2-22/pass_fd/client.c:90-103 | no run deadlocks; a finished one has read the whole file and leaves sem2 at 1 if the file ends in the server's turn, else sem1 |
| SharedFile.FuelFalls | 10-2-22/pass_fd/server.c:101-116 | every step uses up a bounded measure |
| SharedFile.RunsEnd | 10-2-22/pass_fd/client.c:90-103 | no run takes more than 7 effective steps for each character of the file, and 7 |
| SharedFile.ReadTogether | 10-2-22/pass_fd/server.c:101-116 | any scheduler of enabled processes reads exactly the file |
| SharedFile.ExclusiveExactly | 10-2-22/pass_fd/server.c:101-116 | for any initial semaphore values: exclusive iff sem1 is 0 and (sem2 is 0 or the file is shorter than a chunk) |
| SharedFile.NextRunExclusive | 10-2-22/pass_fd/server.c:101-116 | a second run on the semaphores left by a first is exclusive iff the first file ended in the server's turn and the second is shorter than a chunk |
| SharedFile.SecondTurnTooEarly | 10-2-22/pass_fd/server.c:101-116 | the interleaving that breaks a run started with a leftover sem2 |
| TypedQueue.SendOfType | 12-1-22/group_signal/p1.c:56-117 | a send appends to the sub-queue of its own type only |
| TypedQueue.ReceiveOfType | 12-1-22/group_signal/p1.c:56-117 | a receive takes the head of the sub-queue of its own type only |
| GroupSignal.MainInv | 12-1-22/group_signal/p1.c:56-117 | every step of every process keeps the invariant on queue, order, signals and learnt pids |
| GroupSignal.RunInv | 12-1-22/group_signal/p2.c:54-99 | every interleaving, with interrupted receives and any outcome of `setpgid`, satisfies it |
| GroupSignal.EveryReceiveIntended | 12-1-22/group_signal/p1.c:56-117 | each receive that returned gave the intended pid; P2, P3 and P4 get P1's group id, never their own pid; no SIGUSR1 is stray or meets another one pending, and no `killpg` names a wrong group |
| GroupSignal.FailureExactly | 12-1-22/group_signal/p3.c:53-90 | a receive can fail with the queue still there iff P3 or P4 is in the group |
| GroupSignal.MergeExactly | 12-1-22/group_signal/p3.c:53-97 | a SIGUSR2 can meet another one pending iff the group is not empty |
| GroupSignal.EverySignalAccounted | 12-1-22/group_signal/p4.c:87-93 | at every member of the group, SIGUSR2 handled, pending and merged are as many as the processes past their `killpg`, three at the end; outside it there are none |
| GroupSignal.RemovalReleases | 12-1-22/group_signal/p1.c:123-129 | after the leader has removed the queue, a run can only stop with each of the others done or out with an error |
| GroupSignal.StopsComplete | 12-1-22/group_signal/p4.c:52-87 | with neither in it, a run in which only the leader's removal of the queue is left has served all four |
| GroupSignal.EndReachable | 12-1-22/group_signal/p1.c:56-117 | whatever the group, from any state without failures that end can be reached |
| GroupSignal.RunsEnd | 12-1-22/group_signal/p2.c:54-99 | no run has more than 37 (size of the group + 2) effective moves |
| RingSignal.AtMostOneInFlight | 12-1-22/circular_signal/p1.c:19-33 | in every run, for every number of rounds, at most one signal is under way; none is lost, stray or interrupts a receive |
| RingSignal.HandlersInStep | 12-1-22/circular_signal/p2.c:22-45 | neighbouring counters, for either signal and the final cascade included, differ by at most one; a forwarding handler knows its target |
| RingSignal.EndStates | 12-1-22/circular_signal/p1.c:53-95 | a run is stuck iff all handlers have run once more than there are rounds, for each signal, or P1 missed a wake-up |
| RingSignal.EarlyStopExactly | 12-1-22/circular_signal/p1.c:53-95 | for every number of rounds the normal end is reachable; a missed wake-up is reachable iff there is a round |
| RingSignal.RunsEnd | 12-1-22/circular_signal/p3.c:20-43 | no run has more than 22 effective moves for each round, and 35 |
| RingSignal.RunInv | 12-1-22/circular_signal/p4.c:21-44 | the invariant of set-up, links and handlers over all runs |
| Ess.StepInv | 22-3-22_RAW/ESS/C.c:105-165 | every step of every client keeps the invariant: one holder, or one connection in flight |
| Ess.OneOwner | 22-3-22_RAW/ESS/first_client.c:83-124 | the connection is with exactly one client or on its way; whoever has `i_am_running` set holds it |
| Ess.MeetsItsCaller | 22-3-22_RAW/ESS/C.c:105-165 | a client connects to the holder that signalled it, `accept` returns the client signalled, nothing fails |
| Ess.ServedInOrder | 22-3-22_RAW/ESS/C.c:105-165 | the connection is granted in message-queue order, to nobody twice |
| Ess.FirstComeFirstServed | 22-3-22_RAW/ESS/C.c:101-106 | if p has queued while q has not, q never has the connection before p has had it |
| Ess.StuckMeansAllServed | 22-3-22_RAW/ESS/C.c:105-165 | a run that can go no further has served every client that queued |
| Ess.RunsEnd | 22-3-22_RAW/ESS/C.c:89-166 | no client takes more than eleven effective steps |
| TollGate.OwnVerdict | midlab/toll_gate/g1.c:60-117 | every verdict told to a vehicle is (its own port was readable and is a multiple of 3) |
| TollGate.EveryVehicleTold | midlab/toll_gate/g1.c:60-117 | after any past, at every free gate, every new vehicle gets in and can be told, with its number and wheels: valid iff its port is readable and a multiple of 3 |
| TollGate.WillBeTold | midlab/toll_gate/g1.c:80-105 | from any point of any run, a vehicle at a gate can be brought to its verdict |
| TollGate.PairsStayAligned | midlab/toll_gate/g1.c:80-103 | cursors move in whole pairs, the awaited pair is never behind, every pair in the log is right |
| TollGate.CountersBounded | midlab/toll_gate/TM.c:110-122 | approvals of a kind = counted + pending + coalesced + still to be sent |
| TollGate.LossExactly | midlab/toll_gate/TM.c:110-122 | a signal of either kind can be lost to coalescing iff there is a gate |
| TollGate.CountExactly | midlab/toll_gate/TM.c:110-122 | a count equals the approvals of its kind iff no signal is pending, lost or owed |
| TollGate.BusyGateProgress | midlab/toll_gate/TM.c:61-85 | while a gate is busy, a process other than a new vehicle can move |
| TollGate.RunsEnd | midlab/toll_gate/g1.c:80-103 | with n gates, no run does more than 2 n + 13 effective steps for each vehicle |
| TollGate.QuietMeansServed | midlab/toll_gate/g1.c:60-117 | when only an arrival could change anything, all gates are free and every vehicle that came has been told |
| TollGate.StepInv | midlab/toll_gate/FT.c:44-62 | every step of gates, manager and checker keeps the invariant |
| Wire.Low16IsMod | endlab/client.c:12-15 | the cut of an int to 16 bits is the residue modulo 65536 |
| Wire.SwapTwice | endlab/client_stub.c:30-33 | out through `htons` and in through `ntohs` leaves the low 16 bits, for every int |
| Wire.NetworkOrder | endlab/client.c:12-15 | a converted value stands in the packet high byte first, under two zero bytes |
| Wire.WireRoundTrip | endlab/client_stub.c:90-97 | through the packet the name survives and each field comes out with its low bytes swapped |
| Wire.PacketLayout | endlab/rpc.h:37-46 | by byte offsets: name and terminator from 54, opcode at 66, result at 70, arguments at 74 and 78, nothing else written |
| Wire.CopyName | endlab/client_stub.c:94 | the name is written with its terminator into the field, nothing else changes |
| Wire.SendPcapPacket | endlab/server_stub.c:90-98 | the in-place writes give the packet `Filled` describes; the client's leaves `return_val` alone |
| Wire.ExtractRpc | endlab/client_stub.c:26-34 | the read-out of a packet, name up to its terminator |
| Rpc.ServeCorrect | endlab/server.c:19-31 | a request whose arguments were cut to 16 bits gets the exact answer cut to 16 bits |
| Rpc.ServeOtherwise | endlab/server.c:19-31 | the answer keeps name and arguments and is marked a reply; an unknown function gets -1 |
| Rpc.StepInv | endlab/server_stub.c:140-171 | every step keeps the call in one place with the right content |
| Rpc.ResultsBelongToCalls | endlab/client.c:5-59 | the k-th result printed answers the k-th call: (a + b) or (a - b) modulo 65536, and true iff the exact value is in 0..65535 |
| Rpc.CallProgress | endlab/client_stub.c:141-174 | a call is stuck iff the stub timed out and the reply is on the wire |
| Rpc.AnswerableExactly | endlab/client_stub.c:141-174 | from any point of any run the call in progress can still be answered iff the stub has not given it up |
| Rpc.BothEndsOccur | endlab/client_stub.c:141-174 | after any past, every call can be answered with its value modulo 65536, and can be given up |
| Rpc.RunsEnd | endlab/server_stub.c:140-171 | no run does more than eleven effective steps for each call, timeouts apart |
| HexDump.PrintData | packet_sniffing/pcap/packet_sniff.c:317-362 | the streaming loop prints the row-by-row dump |
| HexDump.LineColumns | packet_sniffing/pcap/packet_sniff.c:344-351 | in every row, the padded last one too, the hex area is 48 wide at one column, decodes to the row, and the text follows at one column |
| HexDump.LineAt | packet_sniffing/pcap/packet_sniff.c:335-359 | each line column by column: the digits of byte k in columns 3 k + 4 and 3 k + 5, text from column 60, blanks everywhere else |
| HexDump.DumpDecodes | packet_sniffing/pcap/packet_sniff.c:317-362 | the hex columns of the dump decode to the buffer, the text columns join to its text |
| HexDump.TextAt | packet_sniffing/pcap/packet_sniff.c:328-331 | the k-th character of a text column is byte k if it is in 32..128, a dot otherwise |
| HexDump.DumpJoins | packet_sniffing/pcap/packet_sniff.c:322-334 | a whole number of rows dumps independently of what follows |
| HexDump.PrintDataText | manoj_cn_end_lab_practice/cn_end_lab_practice/packets libpcap/observer/obs.c:26-58 | the text-only printer prints the text columns of the full dump and a newline, and nothing for an empty buffer |
| Decimal.Reverse | 21-1-22/KR - Device - Driver - Details/2-KR-Device Driver Programs-2/tickTock.c:59-69 | the two-pointer loop reverses the first part of the array and leaves the rest |
| Decimal.Itoa | 21-1-22/KR - Device - Driver - Details/2-KR-Device Driver Programs-2/tickTock.c:72-112 | for every int the buffer holds `Text(n)` and a terminator, the length is returned, at most 12 characters are touched |
| Decimal.WriteDigits | 21-1-22/KR - Device - Driver - Details/2-KR-Device Driver Programs-2/tickTock.c:95-100 | the loop leaves the places in reverse order, at most ten |
| Decimal.DigitsValue | 21-1-22/KR - Device - Driver - Details/2-KR-Device Driver Programs-2/tickTock.c:95-120 | the places written add up to the number, negative ones too |
| Decimal.AtoiPlain | 21-1-22/KR - Device - Driver - Details/2-KR-Device Driver Programs-2/tickTock.c:113-124 | for any string, the wrapped sum of its places |
| Decimal.PlainRoundTrip | 21-1-22/KR - Device - Driver - Details/2-KR-Device Driver Programs-2/tickTock.c:72-124 | `atoi(itoa(n)) == n` for 0 <= n <= 2^31 - 1 |
| Decimal.PlainRoundTripExactly | 21-1-22/KR - Device - Driver - Details/2-KR-Device Driver Programs-2/tickTock.c:72-124 | over all ints: iff n >= 0 or n == -2115098112 |
| Decimal.NoOverflowExactly | 21-1-22/KR - Device - Driver - Details/2-KR-Device Driver Programs-2/tickTock.c:119-120 | for n >= 0, no intermediate result leaves the int range iff n <= 2^31 - 49 |
| Decimal.TextIsNumeral | 21-1-22/KR - Device - Driver - Details/2-KR-Device Driver Programs-2/tickTock.c:72-112 | digits only and no superfluous leading zero after the sign, iff n is not the least int |
| Decimal.NumeralUnique | 21-1-22/KR - Device - Driver - Details/2-KR-Device Driver Programs-2/tickTock.c:95-120 | a numeral without leading zero is what `itoa` writes for its value |
| Decimal.AtoiSigned | practice/device_driver/cel_far/cel_far.c:15-28 | for any string, the wrapped signed sum of its places |
| Decimal.SignedRoundTrip | practice/device_driver/cel_far/cel_far.c:15-28 | the signed `atoi` inverts `itoa` on every int |
| MergeFiles.ReadInt | 1/1/sort.c:8-25 | the two read loops and the buffer compute `Read` and leave `Left`, for any file and any garbage |
| MergeFiles.ReadAllExactly | 1/1/sort.c:8-25 | a file and a garbage character read back the file's numbers iff the end of the file is of the good kind or the character cannot start a number |
| MergeFiles.ReadsBackExactly | 1/1/sort.c:8-25 | a file reads back its numbers whatever the garbage iff its end is of the good kind |
| MergeFiles.SomeFileFails | 1/1/sort.c:9-14 | a file and a garbage character that do not |
| MergeFiles.ReadNext | 1/1/sort.c:8-25 | one read takes the next number of a well-formed file and leaves a well-formed file, or finds none |
| MergeFiles.ReadAllNumbers | 1/1/sort.c:8-25 | reading until -1 yields exactly the numbers of a well-formed file |
| MergeFiles.AtoiReads | 1/1/sort.c:23 | `atoi` skips blanks, takes one sign and reads digits up to the first other character |
| MergeFiles.AtoiOfToken | 1/1/sort.c:23 | `atoi` reads a signed numeral, with or without the newline after it |
| MergeFiles.WrittenHolds | 1/1/sort.c:44-53 | the file written is well formed whatever the garbage, and holds exactly the numbers written |
| MergeFiles.MergedSorted | 1/1/sort.c:42-52 | merging sorted lists gives a sorted list |
| MergeFiles.MergedKeeps | 1/1/sort.c:42-52 | the merge is the multiset union, sorted or not |
| MergeFiles.MergeLoop | 1/1/sort.c:42-52 | the loop writes the merge of what is left of both files; its last `else` is never reached |
| MergeFiles.MergeTo | 1/1/sort.c:36-53 | from two well-formed files, the third ends up as the merged numbers and a newline |
| MergeFiles.MergeReadsBack | 1/1/sort.c:8-53 | the merged list is sorted, is the multiset union, and re-reading the written file gives it back |

## Left out

- Sockets, raw sockets, pcap, message queues, semaphores and signals appear only as channels, queues, counters and pending bits. `fork`, `exec`, `popen`, kernel modules and rpcgen stubs are not modelled.
- The protocol processes are steps on one state value: a global a C process assigns in place is a field of that value, and every system call or shared access is one atomic step.
- Waits of the form `while (pid == -1) pause()` in Ess, GroupSignal and the set-up of RingSignal are one atomic step, so a signal between the test and `pause` is not missed there as it could be in C. Only the `kill` followed by `pause` of the ring keeps that race.
- GroupSignal.EverySignalAccounted: treats a process that is done as still there for the signals sent to it later; in C they are dropped with the process.
- GroupSignal.StopsComplete: says nothing of runs in which the leader has removed the queue before the others are done; their receives then fail and they exit.
- TollGate.RunsEnd, Rpc.RunsEnd: vehicles, calls and timeouts themselves may come without end.
- TollGate.OwnVerdict: assumes that all gates listen before the first vehicle, that the broadcast is reliable, ordered and free of foreign packets, that a vehicle number is at most nine characters and is never used again.
- SharedCounter and SharedFile start with both semaphores at 0 (ExclusiveExactly covers the others for the file), and SharedCounter after both initial stores.
- Ess: pids are distinct and not reused, and there is one first client; a client is signalled by the holder only. SIGINT and the server's own messages are not modelled.
- RingSignal: a process that ends itself inside a handler is gone at the end of that handler.
- Rpc.ResultsBelongToCalls: one client, and stubs that see each other's packets exactly once; the Ethernet, IP and TCP headers around the call are arbitrary bytes.
- HammingVector: `pow` and `log2` are exact; lengths stay below 2^31.
- DoubleErrorNeverRepaired: nothing is said about three or more flipped bits beyond CheckIsNearest.
- InCksum: above 65537 bytes it takes the signed overflow to wrap and the shift of a negative sum to keep its sign, which C leaves open.
- SendPacket: a payload must fit the 1024-byte buffer with its terminator; the program does not check that.
- Hosts are little-endian and 64-bit.
- ReadInt: a word of more than nine characters overruns the buffer of ten, and a number that prints in more than eight overruns the output buffer; both are excluded. A file whose numbers are separated by newlines or tabs is not well formed for MergeTo.
- AtoiPlain: characters above 127 are taken as non-negative, and the string must be terminated.
- Itoa: the copy of the text onto itself is not modelled.
- The header dumps in Functions/TCPHeader.c and the other copies of the checksum and dump routines, g2.c and g3.c, and the copies of ESS and pass_fd in other directories are not modelled separately.
- `C_to_F` and `F_to_C` of cel_far.c are single expressions with nothing to prove across calls.
- The checksum of the endlab stubs' own IP header and of 15-3-22_RAW/ip_spoofing/s.c, which do not cover or do not first clear the header, are not claimed to verify.
- practice/semaphore_sharedmem, the pizza, stage show, cricket, multi-data-server and poll exercises depend on timing and are not modelled.
