/** Runs of one endpoint: whatever is sent, received, acknowledged and however time passes. */
module LinkRuns {
  import opened SequenceNumbers
  import opened PacketQueues
  import opened AckFields
  import opened Reliability

  datatype Operation =
    | Send(size: int)
    | Receive(sequence: nat, size: int)
    | Ack(ack: nat, ackBits: AckField)
    | Update(deltaTime: real)

  function Apply(s: LinkState, op: Operation): LinkState {
    match op
    case Send(size) => AfterSend(s, size)
    case Receive(sequence, size) => AfterReceive(s, sequence, size)
    case Ack(ack, ackBits) => AfterAck(s, ack, ackBits)
    case Update(deltaTime) => AfterUpdate(s, deltaTime)
  }

  /** The state after the operations `ops`, the last one last. */
  function Run(max: MaxSequence, ops: seq<Operation>): LinkState {
    if ops == [] then Fresh(max)
    else Apply(Run(max, ops[..|ops| - 1]), ops[|ops| - 1])
  }

  ghost predicate TimeNeverRunsBack(ops: seq<Operation>) {
    forall i :: 0 <= i < |ops| && ops[i].Update? ==> ops[i].deltaTime >= 0.0
  }

  /** Every packet sent is acknowledged, given up or still pending, as far as 32-bit counters
      can tell. */
  ghost predicate Balanced(s: LinkState) {
    s.sentPackets == ToUInt32(s.ackedPackets + s.lostPackets + |s.pendingAckQueue|)
  }

  lemma {:induction false} KeepSplits(q: seq<PacketData>, f: PacketData -> bool, g: PacketData -> bool)
    requires forall p :: f(p) != g(p)
    ensures |Keep(q, f)| + |Keep(q, g)| == |q|
  {
    if q != [] {
      KeepSplits(q[1..], f, g);
    }
  }

  /** Moving `k` from one addend to a counter keeps a sum of 32-bit counters. */
  lemma Moved(counter: nat, k: nat, others: int)
    ensures ToUInt32(ToUInt32(counter + k) + others) == ToUInt32(counter + k + others)
  {
  }

  lemma StepBalances(s: LinkState, op: Operation)
    requires Balanced(s)
    ensures Balanced(Apply(s, op))
  {
    hide ToUInt32, InsertAll, Keep, Holds, AfterUpdate;
    match op
    case Send(_) =>
      Moved(s.ackedPackets + s.lostPackets + |s.pendingAckQueue|, 0, 1);
    case Receive(_, _) =>
    case Ack(ack, ackBits) =>
      KeepSplits(s.pendingAckQueue, Acked(ack, ackBits, s.max), Unacked(ack, ackBits, s.max));
      var taken := Keep(s.pendingAckQueue, Acked(ack, ackBits, s.max));
      var left := Keep(s.pendingAckQueue, Unacked(ack, ackBits, s.max));
      Moved(s.ackedPackets, |taken|, s.lostPackets + |left|);
    case Update(deltaTime) =>
      UpdatedQueues(s, deltaTime);
      var left := AfterUpdate(s, deltaTime).pendingAckQueue;
      Moved(s.lostPackets, |s.pendingAckQueue| - |left|, s.ackedPackets + |left|);
  }

  ghost predicate AgeOrdered(s: LinkState) {
    OldestFirst(s.sentQueue) && OldestFirst(s.pendingAckQueue)
  }

  lemma AgedIsOldestFirst(q: seq<PacketData>, deltaTime: real)
    requires OldestFirst(q) && deltaTime >= 0.0
    ensures OldestFirst(Aged(q, deltaTime))
  {
    AgedAt(q, deltaTime);
    hide Aged;
  }

  lemma DroppedIsOldestFirst(q: seq<PacketData>, f: PacketData -> bool)
    requires OldestFirst(q)
    ensures OldestFirst(DropWhile(q, f))
  {
    DropWhileIsSuffix(q, f);
  }

  lemma StepKeepsAgeOrder(s: LinkState, op: Operation)
    requires AgeOrdered(s) && (op.Update? ==> op.deltaTime >= 0.0)
    ensures AgeOrdered(Apply(s, op))
  {
    match op
    case Send(_) =>
    case Receive(_, _) =>
    case Ack(ack, ackBits) =>
      KeepIsOldestFirst(s.pendingAckQueue, Unacked(ack, ackBits, s.max));
      hide OldestFirst, InsertAll, Keep;
    case Update(deltaTime) =>
      AgedIsOldestFirst(s.sentQueue, deltaTime);
      AgedIsOldestFirst(s.pendingAckQueue, deltaTime);
      DroppedIsOldestFirst(Aged(s.sentQueue, deltaTime), OlderThan(RTT_MAXIMUM + EPSILON));
      DroppedIsOldestFirst(Aged(s.pendingAckQueue, deltaTime), OlderThan(RTT_MAXIMUM + EPSILON));
      hide OldestFirst, Pruned, DropWhile;
  }

  /** Conservation: in every reachable state, sent = acked + lost + pending. */
  lemma {:induction false} SentIsAckedLostOrPending(max: MaxSequence, ops: seq<Operation>)
    ensures Balanced(Run(max, ops))
  {
    if ops != [] {
      SentIsAckedLostOrPending(max, ops[..|ops| - 1]);
      StepBalances(Run(max, ops[..|ops| - 1]), ops[|ops| - 1]);
    }
  }

  lemma {:induction false} QueuesStayAgeOrdered(max: MaxSequence, ops: seq<Operation>)
    requires TimeNeverRunsBack(ops)
    ensures AgeOrdered(Run(max, ops))
  {
    if ops != [] {
      QueuesStayAgeOrdered(max, ops[..|ops| - 1]);
      StepKeepsAgeOrder(Run(max, ops[..|ops| - 1]), ops[|ops| - 1]);
    }
  }

  lemma UpdatedQueues(s: LinkState, deltaTime: real)
    ensures var t := AfterUpdate(s, deltaTime);
            var aged := Aged(s.pendingAckQueue, deltaTime);
            && t.sentQueue == DropWhile(Aged(s.sentQueue, deltaTime), OlderThan(RTT_MAXIMUM + EPSILON))
            && t.pendingAckQueue == DropWhile(aged, OlderThan(RTT_MAXIMUM + EPSILON))
            && t.lostPackets == ToUInt32(s.lostPackets + (|aged| - |t.pendingAckQueue|))
            && t.sentPackets == s.sentPackets && t.ackedPackets == s.ackedPackets
  {
    hide Aged, Pruned, DropWhile, ToUInt32, OlderThan;
  }

  /** After any run in which time does not run back, an update leaves in the sent and the
      pending queue exactly the packets that are not older than 1.001, and counts as lost exactly the
      pending ones that are. */
  lemma UpdateRemovesExactlyTheOverAge(max: MaxSequence, ops: seq<Operation>, deltaTime: real)
    requires TimeNeverRunsBack(ops) && deltaTime >= 0.0
    ensures var s := Run(max, ops);
            var t := AfterUpdate(s, deltaTime);
            && t.sentQueue == Keep(Aged(s.sentQueue, deltaTime), NotOlderThan(1.001))
            && t.pendingAckQueue == Keep(Aged(s.pendingAckQueue, deltaTime), NotOlderThan(1.001))
            && t.lostPackets == ToUInt32(s.lostPackets + |Keep(Aged(s.pendingAckQueue, deltaTime), OlderThan(1.001))|)
  {
    hide Run, AfterUpdate, Aged, Keep, DropWhile, OldestFirst, ToUInt32, TimeNeverRunsBack;
    QueuesStayAgeOrdered(max, ops);
    var s := Run(max, ops);
    OverAgeIsDropped(s.sentQueue, deltaTime);
    OverAgeIsDropped(s.pendingAckQueue, deltaTime);
    UpdatedQueues(s, deltaTime);
  }

  lemma OverAgeIsDropped(q: seq<PacketData>, deltaTime: real)
    requires OldestFirst(q) && deltaTime >= 0.0
    ensures var limit := RTT_MAXIMUM + EPSILON;
            var aged := Aged(q, deltaTime);
            var left := DropWhile(aged, OlderThan(limit));
            && left == Keep(aged, NotOlderThan(limit))
            && |aged| - |left| == |Keep(aged, OlderThan(limit))|
  {
    var limit := RTT_MAXIMUM + EPSILON;
    AgedIsOldestFirst(q, deltaTime);
    PoppingRemovesTheOverAge(Aged(q, deltaTime), limit);
    KeepSplits(Aged(q, deltaTime), NotOlderThan(limit), OlderThan(limit));
  }
}
