# Verified models of the OctoMY core

These Dafny files model the parts of OctoMY whose behaviour is decided by small algorithms, and
prove what the code does on every input and over every run. `dafny verify dfyconfig.toml` checks
all of it.

**Packet reliability** (`SequenceNumbers`, `PacketQueues`, `AckFields`, `ReliabilitySystem`,
`LinkRuns`, `PacketAges`, `ReceivedPruning`, `ForeignSequences`, `AckRuns`, `AckReports`,
`PruningRuns`, `QueueOrder`, `SteadyTraffic`). Packets are numbered without end and
carry their number modulo max + 1. The arithmetic on the carried sequences is related to the
numbers: "more recent" is the order of the numbers on any half range, and the bit index, computed
in 32-bit arithmetic, counts the steps back from the ack. The class `ReliabilitySystem` carries
out the operations in place on its four queues; each method is proved against a function on the
value of the state, and the theorems are about runs of those functions: one endpoint on its own
(`LinkRuns`), and two endpoints over a network that loses, repeats and reorders packets
(`AckRuns`), where ghost numbers say which packet each sequence stands for. `PruningRuns` compares
an endpoint that prunes with one that forgets nothing, `QueueOrder` says which queues stay sorted,
and `SteadyTraffic` shows that the hypotheses of the two-endpoint theorem can be met for ever,
across any number of wrap-arounds.

**Flow control** (`FlowControl`, `PenaltyRuns`), with its 64-bit clocks.

**Expressions** (`Tokens`, `Tokenizer`, `AstBuilder`, `Spacing`, `Printer`, `Evaluator`, `Pipeline`,
`Calls`): the scanning loop, the shunting yard, the tree builder and the recursive evaluator, each
proved against a function, and `Printer` with a grammar of sums, products and factors that knows
nothing of the code's precedences. The theorems go from source text to value; `Calls` says what
becomes of names.

**Handshake** (`Wire`, `HandshakePackets`, `Handshake`, `Channel`, `RoleRuns`, `RoleRefusals`): the
bytes of the three packets, the state of one session, the channel's receive and send paths as
methods on mutable sessions, and runs of two nodes that exchange datagrams, hear other nodes, may
both want to begin and may have sessions refused by their directories.

**Haar detector** (`IntegralImage`, `HaarDetector`, `Equaliser`): the summed-area table in 32-bit
integers against the naive pixel sum, the window scan, and histogram equalisation.

**Session directory** (`SessionDirectory`): the three indexes and the set, and the search for an
unused id.

Where a property one would expect is false of the code, the code was kept, and the exact condition
is proved:

- Pruning the received queue does change acks when packets are reordered by nearly half the
  sequence range, and for every max there is a run that leads there. It is invisible exactly up to a
  lead of (max + 1) / 2 - 35, and up to there over runs of any length.
- Role conflicts are settled for good if and only if the node with the larger id never speaks from a
  session that its directory refused. Session creation ignores the refusal, which is real: the
  address may belong to another session. After one such refusal the other node may change its role
  any number of times, and an ACK may be sent. The larger node keeps its role in any case, and no
  other refusal matters to the roles.
- What the larger node, as an adherent, knows of its peer is the id and nonce of the session its peer
  has if and only if the smaller node never speaks from a refused session either.
- A sequence beyond max, which only a peer with another max sends, makes the ack bits shift by a
  negative count exactly when it exceeds ack + max by at most 2^31; one packet on a fresh endpoint is
  enough. Otherwise it may raise the bit of a packet that never arrived: the field is truthful if and
  only if, whenever such a sequence shares its bit with a sequence up to max, that one has arrived.
- For max of 17 to 22 or 34 to 68 pruning can empty the received queue.
- An ack sent before anything arrived names packet 0, and the peer counts its packet 0 as acked.
  Within half the sequence range, and with sequences up to max, this is the only way an ack can be
  untrue.
- In a sorted queue of two or more, a packet equal to the back is dropped by the sorted insertion.
- A handshake counts as done exactly when it has not begun, and without such a refusal no handshake
  gets past its second packet: an initiator never leaves its first step.
- The directory's indexes stop agreeing exactly when a session is inserted under a full id that is
  already listed, or a session that is not listed is removed while one of its keys is.
- A search for an unused id always succeeds with at most nine sessions and may fail with ten that were
  just created, so the answer zero does not mean that the directory is full.
- Equalising divides by zero exactly when there are pixels and none is above level 0.

Comments and code disagree in places; the model follows the code. The header says that pending
packets are kept for twice the maximum round trip time and received ones up to 32 behind the
latest; the code keeps the former for once that time and the latter up to 34 (35 when the sequence
wraps) behind the packet that arrived last. The sender's constant for the size of an id says 20
bytes; ids are 32 bytes and the receiver insists on it. `HandshakeState::isDone` tests the number of
the expected step, and that of SYN is zero. The validation of the queues would compare neighbours,
but never remembers the previous entry. The ACK returns the nonce of the SYN-ACK, but the
receiver compares it with its ACK nonce.

A call of a function with one argument, which has no parentheses of its own and nothing before it, is
read as it is written. In other places the code's rule, to take the token at the front of the output for
the function that is being closed, goes wrong: for all names and numbers f(g(a)) is read as g(f(a)) and
f(a+(b)) as a+f(b), while a+f(b) and f(a,b) are refused. No tree ever contains a variable.

Every operation that works step by step is a method or a class, under the name it has in the
source as far as that is possible; `hide` statements at the head of a proof only keep definitions
out of the verifier's way.

## Model

| member | source | states |
|---|---|---|
| SequenceNumbers.RecentInOneDirection | src/libs/libcomms/comms/ReliabilitySystem.cpp:166-169 | of two different sequences exactly one is more recent than the other, and none than itself |
| SequenceNumbers.RecentIsNewer | src/libs/libcomms/comms/ReliabilitySystem.cpp:166-169 | on any half range, wrapping or not, "more recent" is the order of the packet numbers, so it is a strict total order there |
| SequenceNumbers.SequenceIsUnique | src/libs/libcomms/comms/ReliabilitySystem.cpp:111-114 | packets less than a whole turn apart carry different sequences |
| SequenceNumbers.BitIndexCountsBack | src/libs/libcomms/comms/ReliabilitySystem.cpp:171-184 | for every sequence that is not newer than the ack the 32-bit computation fits a signed int and is (ack - 1 - sequence) mod (max + 1), up to max = 0xFFFFFFFF |
| SequenceNumbers.BitIndexOfNumber | src/libs/libcomms/comms/ReliabilitySystem.cpp:171-184 | in terms of packet numbers the bit index is the distance back from the packet before the ack |
| SequenceNumbers.ShiftIsUndefinedExactly | src/libs/libcomms/comms/ReliabilitySystem.cpp:171-196 | for any 32-bit sequence and ack, beyond max or not, the shift by the bit index is undefined if and only if the sequence exceeds ack + max by at most 2^31 |
| PacketQueues.PacketQueue.Exists | src/libs/libcomms/comms/ReliabilitySystem.cpp:13-21 | finds a sequence exactly when some entry has it |
| PacketQueues.PacketQueue.InsertSorted | src/libs/libcomms/comms/ReliabilitySystem.cpp:23-42 | leaves the queue that the specification of the insertion describes, on any queue, sorted or not |
| PacketQueues.InsertKeepsOrder | src/libs/libcomms/comms/ReliabilitySystem.cpp:23-42 | a new packet goes where its number belongs: the queue stays sorted and holds the old packets and the new one |
| PacketQueues.StoredUnlessNoneNewer | src/libs/libcomms/comms/ReliabilitySystem.cpp:23-42 | on any queue the packet is stored, except when the search for a newer entry fails |
| PacketQueues.InsertDropsExactlyTheBack | src/libs/libcomms/comms/ReliabilitySystem.cpp:28-40 | in a sorted queue of two or more a packet equal to the back, and no other, is dropped |
| PacketQueues.PoppingRemovesTheOverAge | src/libs/libcomms/comms/ReliabilitySystem.cpp:329-331 | in a queue ordered by age, popping from the front removes exactly the over-age packets |
| PacketQueues.KeepIsOldestFirst | src/libs/libcomms/comms/ReliabilitySystem.cpp:214-236 | taking packets out of the middle keeps the age order |
| AckFields.GenerateAckBits | src/libs/libcomms/comms/ReliabilitySystem.cpp:186-199 | the loop raises exactly the bits of the packets up to the first entry equal to or newer than the ack |
| AckFields.ReportInRangeIsDefined | src/libs/libcomms/comms/ReliabilitySystem.cpp:186-199 | as long as no sequence beyond max was received, every shift in building the field is defined |
| ForeignSequences.UndefinedShiftIsReached | src/libs/libcomms/comms/ReliabilitySystem.cpp:186-199 | for every max but the largest, one packet with sequence max + 1 on a fresh endpoint leads to an undefined shift |
| ForeignSequences.ForeignSequenceLies | src/libs/libcomms/comms/ReliabilitySystem.cpp:186-199 | a run in which all shifts are defined and the field acknowledges a packet that never arrived |
| ForeignSequences.TruthfulExactly | src/libs/libcomms/comms/ReliabilitySystem.cpp:186-225 | a sender up to max takes only arrived packets for acked, apart from the ack itself, if and only if each reported sequence beyond max that shares its bit with one up to max is backed by that one |
| ForeignSequences.BeyondStandsForATurnBefore | src/libs/libcomms/comms/ReliabilitySystem.cpp:171-184 | past the ack by no more than max, a sequence beyond max has the bit of the sequence one turn before it |
| AckFields.BitMeansArrivedBefore | src/libs/libcomms/comms/ReliabilitySystem.cpp:186-199 | bit k is raised exactly when packet ack - 1 - k arrived before the first packet numbered ack or later |
| AckFields.AckedByNumber | src/libs/libcomms/comms/ReliabilitySystem.cpp:218-225 | the sender takes packet n for acked exactly when it is the ack or its bit is raised |
| AckFields.CodecIsExact | src/libs/libcomms/comms/ReliabilitySystem.cpp:186-237 | building and reading the field together: packet n is taken for acked exactly when it is the ack, or one of the 32 before it that arrived before it |
| Reliability.ReliabilitySystem.constructor | src/libs/libcomms/comms/ReliabilitySystem.cpp:60-74 | the fresh state, with four queues of its own |
| Reliability.ReliabilitySystem.Reset | src/libs/libcomms/comms/ReliabilitySystem.cpp:76-92 | the fresh state again, except that the list of freshly acked packets stays |
| Reliability.ReliabilitySystem.PacketSent | src/libs/libcomms/comms/ReliabilitySystem.cpp:94-115 | the new state: the packet is sent and pending, counted, and the sequence moves on, wrapping after max |
| Reliability.ReliabilitySystem.PacketReceived | src/libs/libcomms/comms/ReliabilitySystem.cpp:117-131 | the new state, for repeated, new and newest packets |
| Reliability.ReliabilitySystem.GenerateAckBits | src/libs/libcomms/comms/ReliabilitySystem.cpp:133-136 | the field of the received queue for the remote sequence |
| Reliability.ReliabilitySystem.ProcessAck | src/libs/libcomms/comms/ReliabilitySystem.cpp:138-141 | the new state: the acked packets move from pending to acked, in order, are listed, counted and averaged |
| Reliability.ProcessAckOn | src/libs/libcomms/comms/ReliabilitySystem.cpp:201-237 | the loop that erases while it iterates keeps exactly the unacked packets and handles the acked ones in queue order |
| Reliability.IsAcked | src/libs/libcomms/comms/ReliabilitySystem.cpp:216-225 | the test made on each pending packet, without reading outside the 32 bits |
| Reliability.ReliabilitySystem.Update | src/libs/libcomms/comms/ReliabilitySystem.cpp:143-152 | ages all queues and then prunes them, and clears the list of freshly acked packets |
| Reliability.ReliabilitySystem.AdvanceQueueTime | src/libs/libcomms/comms/ReliabilitySystem.cpp:306-323 | every entry of all four queues is older by the time step, nothing else changes |
| Reliability.ReliabilitySystem.UpdateQueues | src/libs/libcomms/comms/ReliabilitySystem.cpp:325-349 | each queue is popped from the front by its own rule, and the lost counter grows by what left the pending queue |
| Reliability.PopWhile | src/libs/libcomms/comms/ReliabilitySystem.cpp:345-348 | drops the longest prefix of which the condition holds and counts it |
| LinkRuns.SentIsAckedLostOrPending | src/libs/libcomms/comms/ReliabilitySystem.cpp:94-349 | in every reachable state sent = acked + lost + pending, modulo 2^32 |
| LinkRuns.QueuesStayAgeOrdered | src/libs/libcomms/comms/ReliabilitySystem.cpp:306-349 | while time does not run back, sent and pending packets stay ordered by age |
| LinkRuns.UpdateRemovesExactlyTheOverAge | src/libs/libcomms/comms/ReliabilitySystem.cpp:325-349 | after any run an update removes from the sent and the pending queue exactly the packets older than 1.001, wherever they are, and counts exactly the pending ones as lost |
| PacketAges.CountersCount | src/libs/libcomms/comms/ReliabilitySystem.cpp:94-131 | in every run the 32-bit counters are the numbers of packets sent and of packets that arrived, repeats included |
| PacketAges.AgesAreTimesSince | src/libs/libcomms/comms/ReliabilitySystem.cpp:99-130 | in every run each entry of the four queues is a packet that was sent, or arrived, with its sequence and size, and its time is the time passed since |
| PacketAges.AckedPacketsAreForgotten | src/libs/libcomms/comms/ReliabilitySystem.cpp:341-343 | an update pops from the acked queue everything up to the first packet not older than 1.999 |
| PacketAges.RttIsWeightedSum | src/libs/libcomms/comms/ReliabilitySystem.cpp:228 | after any run the estimate is the sum of the ages at which packets were acked, weighted 0.1 for the last and nine tenths as much for each one before |
| ReceivedPruning.PruningKeepsTheLatest | src/libs/libcomms/comms/ReliabilitySystem.cpp:333-339 | for max above 68 pruning never empties the received queue, whatever sequences are in it |
| ReceivedPruning.PruningCanEmptyExactly | src/libs/libcomms/comms/ReliabilitySystem.cpp:333-339 | pruning can empty a queue of sequences up to max exactly for max of 17 to 22 and 34 to 68, and a queue of any sequences exactly for max up to 68 |
| ReceivedPruning.PruningIsNotReported | src/libs/libcomms/comms/ReliabilitySystem.cpp:333-339 | within the limit on reordering, pruning changes no bit of any ack |
| ReceivedPruning.PruningShowsPastTheLimit | src/libs/libcomms/comms/ReliabilitySystem.cpp:333-339 | for every max above 68 a run of receives and updates, with a reordering one past the limit, after which pruning changes the ack that the endpoint sends |
| ReceivedPruning.PruningIsInvisibleUpToTheLimit | src/libs/libcomms/comms/ReliabilitySystem.cpp:186-199 | for max above 68 pruning is invisible in all acks, of any queue and of the queues a run can lead to, if and only if no packet leads the last arrival by more than (max + 1) / 2 - 35 |
| PruningRuns.PruningNeverShows | src/libs/libcomms/comms/ReliabilitySystem.cpp:333-339 | for max above 68, over runs of any length within the limit, with any repeats of pruned packets, the endpoint sends the ack bits of one that forgets nothing |
| AckRuns.ProcessAckTakesExactlyTheReported | src/libs/libcomms/comms/ReliabilitySystem.cpp:186-237 | one endpoint's field, processed by the other, takes from its pending packets exactly the reported ones, in order |
| AckRuns.InOrderReportsAllHeld | src/libs/libcomms/comms/ReliabilitySystem.cpp:186-199 | after in-order arrival the reported packets are all held ones among the ack and the 32 before it |
| AckRuns.SentPacketIsHonest | src/libs/libcomms/comms/ReliabilitySystem.cpp:133-136 | every raised bit of a sent packet, and its ack unless nothing arrived, stands for a packet that was received |
| AckRuns.AckIsTruthfulUnlessUninformed | src/libs/libcomms/comms/ReliabilitySystem.cpp:201-237 | processing an ack counts something as acked that never arrived if and only if the peer had received nothing when it sent it, and packet 0 is pending and never arrived |
| AckRuns.RunsAreSound | src/libs/libcomms/comms/ReliabilitySystem.cpp:94-152 | the invariant of all runs of two endpoints under loss, repetition and reordering within half the range |
| AckRuns.AcksAreTruthful | src/libs/libcomms/comms/ReliabilitySystem.cpp:94-141 | in every such run every packet counted as acked was received by the peer, unless an uninformed ack named packet 0; none is counted twice |
| AckRuns.EveryPacketHasOneFate | src/libs/libcomms/comms/ReliabilitySystem.cpp:94-349 | in every such run each packet either endpoint sent is in exactly one of its pending, acked and lost, once |
| AckRuns.AckOfNothing | src/libs/libcomms/comms/ReliabilitySystem.cpp:133-141 | a run in which a packet is counted as acked although the peer received nothing |
| AckReports.AcksAreReportedOnce | src/libs/libcomms/comms/ReliabilitySystem.cpp:138-152 | in every run the lists that stood just before each update of an endpoint, joined in order with its present one, name exactly the packets it counts as acked, in order and each once; so the list is empty after an update |
| QueueOrder.QueuesStaySorted | src/libs/libcomms/comms/ReliabilitySystem.cpp:155-161 | in every run the sent queue is sorted and the pending packets are in order, and the acked queue is sorted as long as what is acked is within half the range of it |
| QueueOrder.AckKeepsHeldOrder | src/libs/libcomms/comms/ReliabilitySystem.cpp:227-232 | then an ack keeps the acked queue sorted and drops nothing, old or new |
| QueueOrder.ReceivedStaysInOrder | src/libs/libcomms/comms/ReliabilitySystem.cpp:117-131 | the received queue stays in order of number exactly as long as each new packet is newer than the last that arrived |
| QueueOrder.SortedByNumber | src/libs/libcomms/comms/ReliabilitySystem.cpp:44-54 | a queue in order of number, with neighbours within half the range, is one in which every entry is more recent than the one before |
| SteadyTraffic.SteadyRun | src/libs/libcomms/comms/ReliabilitySystem.cpp:94-152 | for every n a run within half the range in which n packets go each way, all are acked in order and none is lost, across any number of wrap-arounds |
| FlowControl.FlowController.Update | src/libs/libcomms/comms/FlowControl.cpp:29-78 | the new mode, penalty and clocks in both modes |
| FlowControl.FlowController.Reset | src/libs/libcomms/comms/FlowControl.cpp:21-27 | the state a new controller has |
| FlowControl.HighRateIsEarned | src/libs/libcomms/comms/FlowControl.cpp:80-83 | the rate after any run is 10 or 30, and whenever it is 30 the last switch to good followed a calm stretch longer than its penalty, and since the start of that stretch every update had an rtt of at most 250 |
| FlowControl.PenaltyStaysInBounds | src/libs/libcomms/comms/FlowControl.cpp:37-54 | in every run the penalty time stays between 1000 and 60000 |
| FlowControl.CalmStretch | src/libs/libcomms/comms/FlowControl.cpp:62-67 | in bad mode the clock never exceeds the length of the unbroken stretch of good updates that ends now |
| FlowControl.UpgradeFollowsCalm | src/libs/libcomms/comms/FlowControl.cpp:62-74 | every switch to good follows an unbroken stretch of updates with rtt at most 250, longer than the penalty in force |
| FlowControl.UpgradesTakeTime | src/libs/libcomms/comms/FlowControl.cpp:29-78 | a run of total time T has at most T / 1001 switches to good |
| PenaltyRuns.ClocksShowTheStretch | src/libs/libcomms/comms/FlowControl.cpp:48-49 | in every run the clock of good conditions is the time since the last reset, slow round trip or switch, and the accumulator that since the last change of the penalty as well, in 64 bits |
| PenaltyRuns.ModeSwitchesExactly | src/libs/libcomms/comms/FlowControl.cpp:33-75 | an update leaves good mode if and only if the rtt exceeds 250, and bad mode if and only if it does not and the stretch becomes longer than the penalty |
| PenaltyRuns.PenaltyChangesExactly | src/libs/libcomms/comms/FlowControl.cpp:37-58 | the penalty doubles, up to 60000, exactly on a drop less than 10000 after the switch to good, and halves, down to 1000, exactly when it was steady in good mode for longer than 10000 |
| PenaltyRuns.QuickDropsMustBeWaitedOut | src/libs/libcomms/comms/FlowControl.cpp:37-74 | after n drops in a row that each came less than 10000 after their switch, the next switch follows an unbroken calm stretch longer than min(60000, p * 2^n), where p is the penalty before them, 4000 at the start |
| PenaltyRuns.GoodStretchesHalve | src/libs/libcomms/comms/FlowControl.cpp:48-58 | in good mode the penalty is that of the switch halved n times, with n less than a ten-thousandth of the stretch, and n > 0 once the stretch is longer than 10000 unless the penalty is 1000 |
| Tokenizing.Tokenize | src/libs/libeval/eval/Tokenizer.cpp:9-98 | the loop gives the tokens of the specification, or its first error with its column |
| Tokenizing.TokenizingIsLossless | src/libs/libeval/eval/Tokenizer.cpp:9-98 | the tokens of an accepted text spell it, end with the end token, have balanced parentheses, and no two neighbours are both whitespace or both names |
| Tokenizing.NumberIsLongest | src/libs/libeval/eval/Tokenizer.cpp:30-43 | a number consists of digits and at most one point, and ends only where neither a digit nor a first point follows |
| Tokenizing.ScanRefusesExactly | src/libs/libeval/eval/Tokenizer.cpp:16-90 | no token begins at a closing parenthesis where none is open, nor at a character that is no space, digit, letter, underscore or sign, nor at a point without a digit after it; everything else begins one |
| Tokenizing.ErrorsPointAtTheCharacter | src/libs/libeval/eval/Tokenizer.cpp:62-89 | the column of an error is the position of the character it names |
| AstBuilding.Rpn | src/libs/libeval/eval/ASTBuilder.cpp:20-97 | the shunting-yard loops compute the queue of the specification, or its error |
| AstBuilding.Ast | src/libs/libeval/eval/ASTBuilder.cpp:115-165 | the stack loop computes the tree of the specification, or its error |
| AstBuilding.Build | src/libs/libeval/eval/ASTBuilder.cpp:170-181 | both stages in sequence, with the empty token list refused |
| Printing.TreeBuilderInvertsPostorder | src/libs/libeval/eval/ASTBuilder.cpp:115-165 | on a queue of numbers and operators the builder succeeds exactly when every non-empty prefix has more numbers than operators and the whole one more; the postorder of its tree is the queue |
| Printing.PostorderBuildsBack | src/libs/libeval/eval/ASTBuilder.cpp:115-165 | building the postorder of a tree gives the tree |
| Printing.RpnIsPostorder | src/libs/libeval/eval/ASTBuilder.cpp:20-97 | the shunting yard turns any notation that follows the grammar of sums, products and factors into the postorder of its tree |
| Printing.ParserUndoesPrinter | src/libs/libeval/eval/ASTBuilder.cpp:12-181 | however a tree is written down by the grammar of sums, products and factors, with any further parentheses and any whitespace, the parser gives back that tree |
| Printing.PrintIsProper | src/libs/libeval/eval/ASTBuilder.cpp:12-17 | every tree of numbers and the five operators can be written down by that grammar |
| Printing.GrammarIsPrecedence | src/libs/libeval/eval/ASTBuilder.cpp:12-17 | the precedences of the code give the same products and factors, and ask for the same parentheses, as the grammar in which * / and % bind tighter than + and - and all of them to the left |
| Printing.PrintHasFewestParentheses | src/libs/libeval/eval/ASTBuilder.cpp:12-17 | no way to write a tree down by the grammar has fewer parentheses than the printed one |
| Spacing.WhitespaceIsKept | src/libs/libeval/eval/ASTBuilder.cpp:24-79 | in an arithmetic expression the whitespace attached to the tokens of the output, with that left over at the end, is the whitespace of the expression |
| Calls.CallIsBuilt | src/libs/libeval/eval/ASTBuilder.cpp:52-138 | a call of one argument without parentheses of its own, with nothing before it, becomes the call of the function on the tree of its argument |
| Calls.CallIsEvaluated | src/libs/libeval/eval/CompiledExpression.cpp:65-77 | and evaluates to the value of the function on the value of the argument, if the function is known and the argument has one |
| Calls.NestedCallsSwap | src/libs/libeval/eval/ASTBuilder.cpp:64-71 | f(g(a)) becomes g(f(a)) |
| Calls.ParenthesesEndTheCall | src/libs/libeval/eval/ASTBuilder.cpp:64-71 | f(a+(b)) becomes a+f(b) |
| Calls.LaterCallsAreRefused | src/libs/libeval/eval/ASTBuilder.cpp:64-71 | a+f(b) is refused for all numbers a and b: the number in front is taken for the function |
| Calls.TwoArgumentsAreRefused | src/libs/libeval/eval/ASTBuilder.cpp:64-77 | f(a,b) is refused: the arity counts the commas |
| Calls.TreesHaveNoVariables | src/libs/libeval/eval/ASTBuilder.cpp:124-155 | no tree that is built contains a variable |
| Calls.BareNamesAreRefused | src/libs/libeval/eval/ASTBuilder.cpp:152-153 | a name on its own is refused |
| Calls.CallTakesTheLast | src/libs/libeval/eval/ASTBuilder.cpp:124-138 | a call takes the last nodes of the stack, as many as its arity, in their order |
| Evaluating.FmodIsRemainder | src/libs/libeval/eval/CompiledExpression.cpp:52 | the remainder differs from the dividend by a whole multiple of the divisor, has the sign of the dividend and is smaller in size than the divisor |
| Evaluating.NumeralByPlace | src/libs/libeval/eval/CompiledExpression.cpp:37 | a numeral with n digits after the point is the integer its digits spell divided by 10^n; other text is zero |
| Evaluating.ArgumentsInOrder | src/libs/libeval/eval/CompiledExpression.cpp:71-77 | the arguments of a function are the values of its children in order, and the first child without a value decides the error |
| Evaluating.CompiledExpression.Compile | src/libs/libeval/eval/CompiledExpression.cpp:13-21 | stores the root, or refuses a missing one and changes nothing |
| Evaluating.EvaluateNode | src/libs/libeval/eval/CompiledExpression.cpp:29-82 | the recursion and its argument loop give the value of the tree, or the first failure from left to right and nothing evaluated after it |
| Pipelines.Compile | src/libs/libeval/eval/ExpressionEvaluator.cpp:27-55 | tokenizes and builds, and passes on the error of the stage that failed |
| Pipelines.Eval | src/libs/libeval/eval/ExpressionEvaluator.cpp:9-24 | compiles and executes, and passes on the first error |
| Pipelines.SourceTextIsRead | src/libs/libeval/eval/Tokenizer.cpp:9-98 | the text of any notation is tokenized into the tokens of that notation |
| Pipelines.EvaluationIsArithmetic | src/libs/libeval/eval/CompiledExpression.cpp:23-87 | the tree of a notation evaluates to its arithmetic value, or fails exactly when a divisor is zero, with the error of the first such division |
| Pipelines.EvalIsArithmetic | src/libs/libeval/eval/ExpressionEvaluator.cpp:9-55 | evaluating the text of any notation by the grammar gives its value, and fails if and only if some divisor of / or % has the value zero, with the error of the first such division |
| Pipelines.PrintedTextParsesBack | src/libs/libeval/eval/ExpressionEvaluator.cpp:27-55 | printing a tree with the fewest parentheses and parsing the text gives back the tree |
| Wire.HexRoundTrip | src/libs/libcomms/comms/PacketReadState.cpp:144-155 | an upper-case hexadecimal id survives being turned into bytes and back |
| Wire.NullArrayIsRead | src/libs/libcomms/comms/PacketReadState.cpp:134-140 | a null array reads as no bytes, and what follows it is read |
| HandshakePackets.PacketSendState.WriteMultimagic | src/libs/libcomms/comms/PacketSendState.cpp:42-47 | appends the magic to the datagram |
| HandshakePackets.PacketSendState.WriteEncSenderID | src/libs/libcomms/comms/PacketSendState.cpp:158-165 | appends the id's bytes with their length to the message |
| HandshakePackets.PacketSendState.WriteEncNonce | src/libs/libcomms/comms/PacketSendState.cpp:168-173 | appends a nonce to the message |
| HandshakePackets.PacketSendState.WriteEncSessionID | src/libs/libcomms/comms/PacketSendState.cpp:176-181 | appends a session id to the message |
| HandshakePackets.PacketSendState.Encrypt | src/libs/libcomms/comms/PacketSendState.cpp:119-144 | takes the message over exactly when there is a valid key and a message |
| HandshakePackets.PacketSendState.WriteProtocolEncryptedMessage | src/libs/libcomms/comms/PacketSendState.cpp:148-155 | appends the message with its length to the datagram, or the length of a null array when encryption was refused |
| HandshakePackets.PacketReadState.ReadMultimagic | src/libs/libcomms/comms/PacketReadState.cpp:54-58 | consumes the magic, zero when the datagram is too short |
| HandshakePackets.PacketReadState.ReadProtocolEncryptedMessage | src/libs/libcomms/comms/PacketReadState.cpp:134-140 | consumes the message, empty when it is truncated |
| HandshakePackets.PacketReadState.Decrypt | src/libs/libcomms/comms/PacketReadState.cpp:104-131 | opens a stream on the message, and none on an empty one or without a valid key |
| HandshakePackets.PacketReadState.ReadEncSenderID | src/libs/libcomms/comms/PacketReadState.cpp:144-155 | consumes the sender's id and gives it in upper-case hexadecimal |
| HandshakePackets.PacketReadState.ReadEncRemoteNonce | src/libs/libcomms/comms/PacketReadState.cpp:159-169 | consumes the nonce, zero when it is missing |
| HandshakePackets.PacketReadState.ReadEncReturnNonce | src/libs/libcomms/comms/PacketReadState.cpp:173-182 | consumes the returned nonce, zero when it is missing |
| HandshakePackets.PacketReadState.ReadEncDesiredRemoteSessionID | src/libs/libcomms/comms/PacketReadState.cpp:186-195 | consumes the session id, zero when it is missing |
| HandshakePackets.HandshakeRoundTrip | src/libs/libcomms/comms/CommsChannel.cpp:778-866 | from the datagram of each of the three packets, for all values, a receiver reads the magic, the 32-byte sender id, the session id and the nonces that were sent |
| HandshakePackets.HandshakeLayout | src/libs/libcomms/comms/CommsChannel.cpp:778-866 | the datagram byte by byte: magic 1, 2 or 3, the length of the rest, the length 32, the id and the fields, numbers with the most significant byte first |
| HandshakePackets.FieldsByPlace | src/libs/libcomms/comms/CommsChannel.cpp:778-866 | the fields byte by byte: the session id in two bytes and the nonces in four |
| Handshakes.HandshakeState.ExpectedStepTX | src/libs/libcomms/comms/HandshakeState.cpp:50-66 | the step to send, by role and counter |
| Handshakes.HandshakeState.ExpectedStepRX | src/libs/libcomms/comms/HandshakeState.cpp:70-94 | the step to receive, by role, counter and whether anything was sent |
| Handshakes.HandshakeState.Done | src/libs/libcomms/comms/HandshakeState.cpp:34-37 | whether the code takes the handshake for done |
| Handshakes.HandshakeState.HandleTX | src/libs/libcomms/comms/HandshakeState.cpp:96-106 | notes that the expected step was sent, and refuses any other |
| Handshakes.HandshakeState.HandleRX | src/libs/libcomms/comms/HandshakeState.cpp:108-119 | moves on by the expected step, and refuses any other |
| Handshakes.HandshakeState.SetInitiator | src/libs/libcomms/comms/HandshakeState.cpp:123-126 | changes the role and nothing else |
| Handshakes.DoneMeansNotBegun | src/libs/libcomms/comms/HandshakeState.cpp:34-37 | the code takes a handshake for done if and only if the session is an adherent that still waits for its first SYN |
| Handshakes.StepsAlternate | src/libs/libcomms/comms/HandshakeState.cpp:50-119 | at each counter at most one role has something to send, and the counter never passes 3 |
| Handshakes.SessionsFollowTheExchange | src/libs/libcomms/comms/HandshakeState.cpp:50-119 | SYN, SYN-ACK and ACK belong to the counters 0, 1 and 2; the initiator speaks at the even ones and listens at the odd one, the adherent the other way round, except that an adherent that spoke waits for the ACK at counter 1 already; an initiator at counter 0 never moves |
| Handshakes.IDDuel.Duel | src/libs/libcomms/comms/IDDuel.cpp:14-17 | the first id wins if and only if it has the larger character at the first difference, or the second id ends there |
| Handshakes.FirstDifferenceDecides | src/libs/libcomms/comms/IDDuel.cpp:14-17 | the comparison that the role theorems rest on is decided by the first difference |
| Handshakes.OneSideWins | src/libs/libcomms/comms/IDDuel.cpp:14-17 | of two different ids exactly one wins, so both nodes agree on the winner |
| Handshakes.WinningIsTransitive | src/libs/libcomms/comms/IDDuel.cpp:14-17 | winning is transitive |
| Channels.CommsChannel.CreateSession | src/libs/libcomms/comms/Comms.cpp:206-221 | a new session in the given role, listed under its id unless the directory refuses |
| Channels.CommsChannel.ReceivePacketRaw | src/libs/libcomms/comms/CommsChannel.cpp:616-647 | what any datagram at all does to all sessions, for any local key |
| Channels.CommsChannel.ReceiveEncryptedBody | src/libs/libcomms/comms/CommsChannel.cpp:136-179 | there is a message to read exactly when the node has a complete valid key and the body is not empty |
| Channels.CommsChannel.ReceiveHandshake | src/libs/libcomms/comms/CommsChannel.cpp:225-334 | without a usable key, and on empty bodies, wrong id sizes and non-SYN packets of unknown senders, nothing changes; SYN of an unknown sender creates an adherent |
| Channels.CommsChannel.ReceiveForSession | src/libs/libcomms/comms/CommsChannel.cpp:266-328 | the duel on equal roles, the expected step, the checks and the move, on the session in place |
| Channels.CommsChannel.ReceiveSyn | src/libs/libcomms/comms/CommsChannel.cpp:344-394 | accepts exactly a session id of 4 or more with a non-zero nonce, and records both |
| Channels.CommsChannel.ReceiveSynAck | src/libs/libcomms/comms/CommsChannel.cpp:406-464 | accepts exactly when also the returned nonce is ours |
| Channels.CommsChannel.ReceiveAck | src/libs/libcomms/comms/CommsChannel.cpp:473-496 | accepts exactly our ACK nonce and changes nothing |
| Channels.CommsChannel.SendHandshake | src/libs/libcomms/comms/CommsChannel.cpp:692-762 | the datagram sent, if any, and all sessions after it, for known and unknown peers |
| Channels.CommsChannel.SendForSession | src/libs/libcomms/comms/CommsChannel.cpp:703-752 | the packet of the expected step if role and step fit, nothing for a session taken for done |
| Channels.CommsChannel.SendSyn | src/libs/libcomms/comms/CommsChannel.cpp:778-799 | the pieces written make up the SYN packet |
| Channels.CommsChannel.SendSynAck | src/libs/libcomms/comms/CommsChannel.cpp:814-837 | the pieces written make up the SYN-ACK packet |
| Channels.CommsChannel.SendAck | src/libs/libcomms/comms/CommsChannel.cpp:849-866 | the pieces written make up the ACK packet |
| Channels.OnlyHandshakesAreHeard | src/libs/libcomms/comms/CommsChannel.cpp:225-264 | a datagram changes a session only if it begins with magic 1, 2 or 3, carries an id of 32 bytes, and comes from a node with a session or sends a SYN; and it changes no other session |
| Channels.TruncatedPacketsAreRefused | src/libs/libcomms/comms/CommsChannel.cpp:344-496 | a SYN or SYN-ACK that was cut off is refused, and so is an ACK unless the ACK nonce is zero |
| Channels.WhoSpeaks | src/libs/libcomms/comms/CommsChannel.cpp:703-752 | told to send, an initiator always speaks, ACK at counter 2 and SYN at every other one, and an adherent exactly at counter 1; the fields of the packet are those of the session |
| RoleRuns.ArrivalOnTheWire | src/libs/libcomms/comms/CommsChannel.cpp:225-334 | receiving the bytes of a packet does to the sender's session what the packet's fields say |
| RoleRuns.TakenExactly | src/libs/libcomms/comms/CommsChannel.cpp:266-496 | exactly which packets take a session a step further, by role, counter, id and nonces; and exactly which make it change its role: those that claim its own role and come from a node that is not smaller at the first difference of the ids |
| RoleRuns.AckIsTakenExactly | src/libs/libcomms/comms/CommsChannel.cpp:473-496 | SYN, SYN-ACK and ACK between an adherent and an initiator at counter 1, field by field; the ACK is taken if and only if the nonce of the SYN-ACK happens to be that of the ACK |
| RoleRuns.OthersDoNotMatter | src/libs/libcomms/comms/CommsChannel.cpp:245-264 | any datagram leaves the sessions of all but the node it names alone |
| RoleRuns.StepKeepsSound | src/libs/libcomms/comms/CommsChannel.cpp:225-334 | the invariant of two nodes over a network that loses, repeats and reorders, for every step of either |
| RoleRuns.RolesChangeAtMostOnce | src/libs/libcomms/comms/CommsChannel.cpp:266-289 | in every run the node whose id has the larger character at the first difference never changes its role once it has a session; and the other changes at most once, unless the larger spoke from a refused session |
| RoleRuns.LargerNeverChanges | src/libs/libcomms/comms/CommsChannel.cpp:266-280 | the first half, from any world and whatever is refused |
| RoleRuns.RolesDifferForEver | src/libs/libcomms/comms/CommsChannel.cpp:266-289 | in every run in which the larger node does not speak from a refused session, once the roles differ they differ for ever |
| RoleRuns.OnePacketSettlesRoles | src/libs/libcomms/comms/CommsChannel.cpp:266-289 | in such a run, as soon as the smaller node has processed any handshake packet of the larger, however late, the roles differ for good |
| RoleRuns.NoHandshakeCompletes | src/libs/libcomms/comms/HandshakeState.cpp:70-94 | in such a run no ACK is sent, initiators stay at their first step, and an adherent that took a SYN holds an id of 4 or more and a nonce that is not zero, those its peer really chose, or at least those of a SYN it sent |
| RoleRuns.BothMayBegin | src/libs/libcomms/comms/CommsChannel.cpp:692-752 | for any two ids a run with a conflict, in which the smaller node changes its role once |
| RoleRefusals.RolesSettleExactlyWithoutRefusals | src/libs/libcomms/comms/Comms.cpp:206-221 | the smaller node changes its role at most once in all runs with at most k refused sessions of the larger, if and only if k is 0 |
| RoleRefusals.OneRefusalUnsettlesRoles | src/libs/libcomms/comms/Comms.cpp:206-221 | for any two ids and every n a run with one such refusal in which the smaller node changes its role n + 1 times |
| RoleRefusals.RolesMeetAgain | src/libs/libcomms/comms/CommsChannel.cpp:266-289 | a run with one such refusal in which the roles differ and later are the same again |
| RoleRefusals.NoAckIsSentExactlyWithoutRefusals | src/libs/libcomms/comms/Comms.cpp:206-221 | no ACK is sent in any run with at most k refused sessions of the larger node, if and only if k is 0 |
| RoleRefusals.LargerKnowsPeerExactlyWithoutRefusals | src/libs/libcomms/comms/Comms.cpp:206-221 | in all runs without refused sessions of the larger node and with at most k of the smaller, the adherent larger node holds the id and nonce of the session its peer has, if and only if k is 0 |
| RoleRefusals.OneRefusalLeadsAstray | src/libs/libcomms/comms/CommsChannel.cpp:344-394 | for any two ids a run with one refused session of the smaller node after which the larger holds an id and a nonce of no session its peer has |
| RoleRefusals.OneRefusalLetsAnAckThrough | src/libs/libcomms/comms/CommsChannel.cpp:740-749 | a run with one such refusal in which an initiator takes a SYN-ACK and sends an ACK |
| IntegralImages.GreyKeepsGrey | src/libs/libhaar/haar/IntegralImage.hpp:9-13 | the weights add up to one and are monotone |
| IntegralImages.GreyIsLuma | src/libs/libhaar/haar/IntegralImage.hpp:9-13 | the grey value is the luma 0.299 R + 0.587 G + 0.114 B of section 2.5.1 of Recommendation ITU-R BT.601, rounded down |
| IntegralImages.NaiveSumIsFourCorners | src/libs/libhaar/haar/IntegralImage.hpp:46-62 | the sum over all pixels of the image inside any rectangle, from four corner blocks |
| IntegralImages.NaiveSumIsOverTheCells | src/libs/libhaar/haar/IntegralImage.hpp:46-62 | the sum over a rectangle of corner and size is the sum over the w by h places it covers, those outside the image counting nothing |
| IntegralImages.SumIsNearLuma | src/libs/libhaar/haar/IntegralImage.hpp:9-62 | it falls short of the sum of the lumas by at most one for each place |
| IntegralImages.IntegralImage.FillRow | src/libs/libhaar/haar/IntegralImage.hpp:39-43 | one row of the table, with no int overflow |
| IntegralImages.IntegralImage.Set | src/libs/libhaar/haar/IntegralImage.hpp:33-45 | every entry of the table is the sum of the block it closes, for images of another size too |
| IntegralImages.IntegralImage.SumInRect | src/libs/libhaar/haar/IntegralImage.hpp:46-62 | the sum of the grey values of the pixels in the rectangle, for every rectangle, with no int overflow on the way while 255 for each pixel fits an int |
| HaarDetector.HaarFeatureExtractor.EvaluateFeature | src/libs/libhaar/haar/HaarFeatureExtractor.cpp:14-26 | the weighted naive sums of the scaled rectangles |
| HaarDetector.ScalingIsBySteps | src/libs/libhaar/haar/HaarFeatureExtractor.cpp:17-22 | a pixel belongs to a scaled rectangle exactly when its step, counted from the corner of the window in steps of the scale, belongs to the rectangle; likewise for the region of a window |
| HaarDetector.EvenImage | src/libs/libhaar/haar/HaarFeatureExtractor.cpp:14-26 | on an even image a feature is worth its weighted area times the grey value and the square of the scale |
| HaarDetector.OneVoteDecides | src/libs/libhaar/haar/HaarFeatureExtractor.cpp:63-75 | a stage with one classifier passes by the left vote below its threshold and by the right one from it on |
| HaarDetector.VotesAddUp | src/libs/libhaar/haar/HaarFeatureExtractor.cpp:63-71 | every classifier of a stage votes once |
| HaarDetector.NoStageIsSkipped | src/libs/libhaar/haar/HaarFeatureExtractor.cpp:57-79 | a window passes exactly when it passes each stage |
| HaarDetector.GridIsTheWindowsInside | src/libs/libhaar/haar/HaarFeatureExtractor.cpp:50-56 | the grid is every window, at each scale, whose region lies inside the image and whose corner is a multiple of the step |
| HaarDetector.HaarFeatureExtractor.PassesCascade | src/libs/libhaar/haar/HaarFeatureExtractor.cpp:57-79 | stopping at the first failing stage decides whether all stages pass |
| HaarDetector.HaarFeatureExtractor.Extract | src/libs/libhaar/haar/HaarFeatureExtractor.cpp:29-98 | the regions of exactly the grid windows inside the image whose every stage sum reaches its threshold, in scan order and each once |
| Equaliser.Histogram | src/libs/libhaar/haar/HaarPreprocessor.cpp:21-29 | each bin is the number of pixels of its level |
| Equaliser.CumulativeDistribution | src/libs/libhaar/haar/HaarPreprocessor.cpp:32-36 | each entry is the number of pixels up to its level; the last is the number of pixels |
| Equaliser.PreprocessImage | src/libs/libhaar/haar/HaarPreprocessor.cpp:39-45 | every pixel becomes the grey of its new level, without int overflow, or there is a division by zero: exactly when there are pixels and none is above level 0 |
| Equaliser.HistogramAddsUp | src/libs/libhaar/haar/HaarPreprocessor.cpp:21-36 | the histogram adds up to the number of pixels |
| Equaliser.DividesByZeroExactlyWhenBlack | src/libs/libhaar/haar/HaarPreprocessor.cpp:39-42 | a pixel is divided by zero if and only if the image has pixels and all of them are at level 0 |
| Equaliser.OneBlackPixel | src/libs/libhaar/haar/HaarPreprocessor.cpp:42 | it is, for an image of one black pixel |
| Equaliser.EqualisingIsMonotone | src/libs/libhaar/haar/HaarPreprocessor.cpp:39-45 | the remap keeps the order of levels, leaves black black, and reaches 255 exactly at the levels no pixel exceeds |
| Equaliser.RemapIsTheShare | src/libs/libhaar/haar/HaarPreprocessor.cpp:42 | the new level is 255 times the share of the pixels above level 0 that are not brighter than the old one, rounded down |
| Equaliser.QGrayIsWeighted | src/libs/libhaar/haar/HaarPreprocessor.cpp:26 | a level is 11 parts of red, 16 of green and 5 of blue, rounded down |
| Equaliser.ShadeHasItsLevel | src/libs/libhaar/haar/HaarPreprocessor.cpp:43 | the pixel written is grey and has the new level |
| SessionDirectories.CommsSessionDirectory.Insert | src/libs/libcomms/comms/CommsSessionDirectory.cpp:34-58 | refuses invalid addresses, listed ids and listed addresses, and otherwise lists the session everywhere |
| SessionDirectories.CommsSessionDirectory.Remove | src/libs/libcomms/comms/CommsSessionDirectory.cpp:60-73 | takes the session's keys out of all indexes |
| SessionDirectories.CommsSessionDirectory.BySessionID | src/libs/libcomms/comms/CommsSessionDirectory.cpp:76-87 | the one listed session with that id, null exactly when there is none |
| SessionDirectories.CommsSessionDirectory.ByFullID | src/libs/libcomms/comms/CommsSessionDirectory.cpp:90-101 | the one listed session with that full id, null exactly when there is none |
| SessionDirectories.CommsSessionDirectory.ByAddress | src/libs/libcomms/comms/CommsSessionDirectory.cpp:103-121 | a listed session with that address, null for a missing or invalid address |
| SessionDirectories.InsertKeepsAgreement | src/libs/libcomms/comms/CommsSessionDirectory.cpp:34-58 | the indexes still agree if and only if the session was refused or its full id was new |
| SessionDirectories.RemoveKeepsAgreement | src/libs/libcomms/comms/CommsSessionDirectory.cpp:60-73 | the indexes still agree if and only if the session was listed or none of its keys is |
| SessionDirectories.RemoveUndoesInsert | src/libs/libcomms/comms/CommsSessionDirectory.cpp:34-73 | removing takes back an insertion |
| SessionDirectories.RunsKeepAgreement | src/libs/libcomms/comms/CommsSessionDirectory.cpp:34-73 | after any run of insertions under new full ids and removals of listed sessions the indexes and the set hold the same sessions |
| SessionDirectories.CommsSessionDirectory.GenerateUnusedSessionID | src/libs/libcomms/comms/CommsSessionDirectory.cpp:248-266 | the first index walked over that is neither zero nor in use, always below 32768; zero exactly when there is none |
| SessionDirectories.CommsSessionDirectory.CreateSession | src/libs/libcomms/comms/Comms.cpp:187-275 | a session is created exactly when the key is valid, the address is known and valid and the id found is at least 4; the id is unused, at most 32767, so never a packet magic; it is listed exactly when its address was free; the indexes still agree exactly when it is refused or no session had its full id |
| SessionDirectories.RefusedThenListed | src/libs/libcomms/comms/Comms.cpp:187-275 | two creations for one peer, the first refused because its address belongs to another session, the second listed at an address of its own: what a refused session rests on |
| SessionDirectories.FewSessionsLeaveAnId | src/libs/libcomms/comms/CommsSessionDirectory.cpp:254-262 | with at most nine sessions the search succeeds within eleven steps, whatever the random numbers |
| SessionDirectories.TenSessionsMayLeaveNone | src/libs/libcomms/comms/CommsSessionDirectory.cpp:248-266 | random numbers with which ten creations in a new directory succeed and the next search gives up |

## Left out

- AcksAreTruthful: assumes that traffic stays within half the sequence range, as sequence comparison does; for an uninformed ack the exception is stated exactly.
- TokenizingIsLossless: which characters are letters, digits and spaces is a parameter; nothing is assumed of it here.
- EvalIsArithmetic: speaks of numbers, the five operators, parentheses and whitespace; names are the subject of `Calls`.
- CallIsBuilt: says when a call is read as it is written, not exactly when; the four shapes in which it is not are shown, but which of the longer expressions with calls happen to come out right is left open.
- ParserUndoesPrinter: does not say that other token sequences are refused, because the parser accepts some that are no infix notation.
- RolesChangeAtMostOnce: a session that expires and is forgotten is not part of a run.
- Update: `updateStats` with its two bandwidth figures is not modelled.
- Channels.CommsChannel.CreateSession: whether a session is created, and whether it is listed, are parameters here; the conditions are those of SessionDirectories.CommsSessionDirectory.CreateSession.
- SendSyn, SendSynAck, SendAck: the key of the session stays valid, as it was when the session was created.
- QueuesStaySorted: nothing is promised of the acked queue once it holds packets further apart than half the range.
- SumInRect: rectangle coordinates are unbounded integers, so the overflow of a scaled corner is not modelled; the sums are 32-bit.
- Extract: stage sums and thresholds are real numbers; painting and logging are not modelled.
- PreprocessImage: needs 255 for each pixel to fit an int; the conversion to a grey image format before it and the rescale after it are Qt's.
- GenerateUnusedSessionID: the random numbers are an arbitrary function of the step.
- Time, round trip times and values of expressions are real numbers; rounding of floats and of decimal text is not modelled.
- The ack bitfield is a sequence of 32 bits rather than a word that is shifted.
- The order on ids is that of characters; it is the byte order the code uses because ids are ASCII.
- The counters of bytes used and available in the packet states.
- Writing to the socket, encryption (compiled out, so it is the identity), keys and associates: their outcomes are parameters.
- `CommsSessionDirectory::prune` does not advance past a live session and has no termination measure.
- The channel finds its sessions by full id only; the directory with its other indexes is modelled on the keys of a session, which stay as they were when it was listed.
- Idle and data packets, couriers and timers of the channel.
- Enum-to-string conversions, the Haar XML loader and saver, the geographic encoder, and all of the user interface.
