/** What the times in the queues mean, over whole runs of one endpoint: how long ago each packet was
    sent or arrived, when it is given up, and what the estimate of the round trip time is made of. */
module PacketAges {
  import opened SequenceNumbers
  import opened PacketQueues
  import opened AckFields
  import opened Reliability
  import opened LinkRuns
  import AckRuns

  /** How much time passes in the operations. */
  function Clock(ops: seq<Operation>): real {
    if ops == [] then 0.0
    else
      var last := ops[|ops| - 1];
      Clock(ops[..|ops| - 1]) + if last.Update? then last.deltaTime else 0.0
  }

  function SendCount(ops: seq<Operation>): nat {
    if ops == [] then 0 else SendCount(ops[..|ops| - 1]) + if ops[|ops| - 1].Send? then 1 else 0
  }

  function ReceiveCount(ops: seq<Operation>): nat {
    if ops == [] then 0 else ReceiveCount(ops[..|ops| - 1]) + if ops[|ops| - 1].Receive? then 1 else 0
  }

  /** The 32-bit counters count every packet sent, and every packet that arrived, repeated or not. */
  lemma {:induction false} CountersCount(max: MaxSequence, ops: seq<Operation>)
    ensures Run(max, ops).sentPackets == ToUInt32(SendCount(ops))
    ensures Run(max, ops).receivedPackets == ToUInt32(ReceiveCount(ops))
  {
    hide AfterAck, AfterUpdate, Holds, IsMoreRecent;
    if ops != [] {
      CountersCount(max, ops[..|ops| - 1]);
      if ops[|ops| - 1].Ack? || ops[|ops| - 1].Update? {
        CountersStay(Run(max, ops[..|ops| - 1]), ops[|ops| - 1]);
      }
    }
  }

  lemma CountersStay(s: LinkState, op: Operation)
    requires op.Ack? || op.Update?
    ensures Apply(s, op).sentPackets == s.sentPackets && Apply(s, op).receivedPackets == s.receivedPackets
  {
    hide Keep, InsertAll, Sequences, SmoothedRtt, ToUInt32, Aged, DropWhile, Pruned;
  }

  // Ages

  /** The entry is the packet sent in operation k: with the sequence of that time, its size, and as its
      age the time that has passed since. */
  ghost predicate SentIn(max: MaxSequence, ops: seq<Operation>, p: PacketData, k: nat) {
    && k < |ops| && ops[k].Send?
    && p == PacketData(Run(max, ops[..k]).localSequence, Clock(ops) - Clock(ops[..k]), ops[k].size)
  }

  ghost predicate WasSent(max: MaxSequence, ops: seq<Operation>, p: PacketData) {
    exists k: nat :: SentIn(max, ops, p, k)
  }

  ghost predicate ReceivedIn(ops: seq<Operation>, p: PacketData, k: nat) {
    && k < |ops| && ops[k].Receive?
    && p == PacketData(ops[k].sequence, Clock(ops) - Clock(ops[..k]), ops[k].size)
  }

  ghost predicate WasReceived(ops: seq<Operation>, p: PacketData) {
    exists k: nat :: ReceivedIn(ops, p, k)
  }

  ghost predicate AllSent(max: MaxSequence, ops: seq<Operation>, q: seq<PacketData>) {
    forall p :: p in q ==> WasSent(max, ops, p)
  }

  ghost predicate AllReceived(ops: seq<Operation>, q: seq<PacketData>) {
    forall p :: p in q ==> WasReceived(ops, p)
  }

  /** An entry as it is after one more operation. */
  function Later(p: PacketData, op: Operation): PacketData {
    if op.Update? then p.(time := p.time + op.deltaTime) else p
  }

  lemma SentStays(max: MaxSequence, ops: seq<Operation>, p: PacketData)
    requires ops != [] && WasSent(max, ops[..|ops| - 1], p)
    ensures WasSent(max, ops, Later(p, ops[|ops| - 1]))
  {
    hide Run;
    var before := ops[..|ops| - 1];
    var k: nat :| SentIn(max, before, p, k);
    assert ops[..k] == before[..k];
    assert SentIn(max, ops, Later(p, ops[|ops| - 1]), k);
  }

  lemma ReceivedStays(ops: seq<Operation>, p: PacketData)
    requires ops != [] && WasReceived(ops[..|ops| - 1], p)
    ensures WasReceived(ops, Later(p, ops[|ops| - 1]))
  {
    var before := ops[..|ops| - 1];
    var k: nat :| ReceivedIn(before, p, k);
    assert ops[..k] == before[..k];
    assert ReceivedIn(ops, Later(p, ops[|ops| - 1]), k);
  }

  /** Where the entries of a queue come from: older ones, as they are later, and perhaps a new one. */
  ghost predicate ComesFrom(after: seq<PacketData>, before: seq<PacketData>, more: seq<PacketData>, op: Operation) {
    forall p :: p in after ==> p in more || exists q :: q in before && p == Later(q, op)
  }

  lemma {:induction false} InsertedFrom(queue: seq<PacketData>, q: seq<PacketData>, max: nat, p: PacketData)
    requires p in InsertAll(queue, q, max)
    ensures p in queue || p in q
    decreases |q|
  {
    hide IsMoreRecent, FirstNewer;
    if q != [] {
      InsertedFrom(SortedInsert(queue, q[0], max), q[1..], max, p);
    }
  }

  lemma PrunedFrom(q: seq<PacketData>, f: PacketData -> bool, op: Operation)
    requires op.Update?
    ensures ComesFrom(DropWhile(Aged(q, op.deltaTime), f), q, [], op)
  {
    var aged := Aged(q, op.deltaTime);
    AgedAt(q, op.deltaTime);
    DropWhileIsSuffix(aged, f);
    hide Aged, DropWhile;
    forall p | p in DropWhile(aged, f) ensures exists r :: r in q && p == Later(r, op) {
      var i :| 0 <= i < |aged| && aged[i] == p;
      assert q[i] in q && p == Later(q[i], op);
    }
  }

  lemma AllStay(q: seq<PacketData>, more: seq<PacketData>, op: Operation)
    requires !op.Update?
    ensures ComesFrom(q + more, q, more, op) && ComesFrom(q, q, more, op)
  {
    forall p | p in q ensures exists r :: r in q && p == Later(r, op) {
      assert p == Later(p, op);
    }
  }

  lemma AckedFrom(s: LinkState, op: Operation)
    requires op.Ack?
    ensures ComesFrom(Apply(s, op).pendingAckQueue, s.pendingAckQueue, [], op)
    ensures ComesFrom(Apply(s, op).ackedQueue, s.ackedQueue + s.pendingAckQueue, [], op)
  {
    var taken := Keep(s.pendingAckQueue, Acked(op.ack, op.ackBits, s.max));
    var t := Apply(s, op);
    forall p | p in t.pendingAckQueue ensures p in s.pendingAckQueue && p == Later(p, op) {
      KeepHolds(s.pendingAckQueue, Unacked(op.ack, op.ackBits, s.max), p);
    }
    forall p | p in t.ackedQueue ensures p in s.ackedQueue + s.pendingAckQueue && p == Later(p, op) {
      InsertedFrom(s.ackedQueue, taken, s.max, p);
      KeepHolds(s.pendingAckQueue, Acked(op.ack, op.ackBits, s.max), p);
    }
  }

  lemma WiderFrom(after: seq<PacketData>, before: seq<PacketData>, others: seq<PacketData>, op: Operation)
    requires ComesFrom(after, before, [], op)
    ensures ComesFrom(after, before + others, [], op)
  {
    forall p | p in after ensures exists q :: q in before + others && p == Later(q, op) {
      var q :| q in before && p == Later(q, op);
      assert q in before + others;
    }
  }

  /** One operation: what each queue holds afterwards. */
  lemma StepFrom(s: LinkState, op: Operation)
    ensures var t := Apply(s, op);
            var sent := if op.Send? then [PacketData(s.localSequence, 0.0, op.size)] else [];
            var arrived := if op.Receive? then [PacketData(op.sequence, 0.0, op.size)] else [];
            && ComesFrom(t.sentQueue, s.sentQueue, sent, op)
            && ComesFrom(t.pendingAckQueue, s.pendingAckQueue, sent, op)
            && ComesFrom(t.ackedQueue, s.ackedQueue + s.pendingAckQueue, [], op)
            && ComesFrom(t.receivedQueue, s.receivedQueue, arrived, op)
  {
    hide Holds, IsMoreRecent, ToUInt32, InsertAll, Keep, Sequences, SmoothedRtt, Aged, DropWhile, MinimumSequence,
        OlderThan, TooOld, ComesFrom;
    if op.Update? {
      PrunedFrom(s.sentQueue, OlderThan(RTT_MAXIMUM + EPSILON), op);
      PrunedFrom(s.pendingAckQueue, OlderThan(RTT_MAXIMUM + EPSILON), op);
      PrunedFrom(s.ackedQueue, OlderThan(RTT_MAXIMUM * 2.0 - EPSILON), op);
      WiderFrom(Apply(s, op).ackedQueue, s.ackedQueue, s.pendingAckQueue, op);
      ReceivedFrom(s, op);
    } else {
      AllStay(s.sentQueue, if op.Send? then [PacketData(s.localSequence, 0.0, op.size)] else [], op);
      AllStay(s.receivedQueue, if op.Receive? then [PacketData(op.sequence, 0.0, op.size)] else [], op);
      if op.Ack? {
        AckedFrom(s, op);
      } else {
        AllStay(s.pendingAckQueue, if op.Send? then [PacketData(s.localSequence, 0.0, op.size)] else [], op);
        AllStay(s.ackedQueue, [], op);
        WiderFrom(Apply(s, op).ackedQueue, s.ackedQueue, s.pendingAckQueue, op);
      }
    }
  }

  lemma ReceivedFrom(s: LinkState, op: Operation)
    requires op.Update?
    ensures ComesFrom(Apply(s, op).receivedQueue, s.receivedQueue, [], op)
  {
    var q := Aged(s.receivedQueue, op.deltaTime);
    AckRuns.UpdatedReceivedQueue(s, op.deltaTime);
    if q != [] {
      PrunedFrom(s.receivedQueue, TooOld(MinimumSequence(q[|q| - 1].sequence, s.max), s.max), op);
    }
    hide Aged, DropWhile, MinimumSequence, TooOld, AfterUpdate, ComesFrom;
    assert q == [] ==> ComesFrom([], s.receivedQueue, [], op) by { EmptyFrom(s.receivedQueue, op); }
  }

  lemma EmptyFrom(before: seq<PacketData>, op: Operation)
    ensures ComesFrom([], before, [], op)
  {
  }

  lemma SentFrom(max: MaxSequence, ops: seq<Operation>, after: seq<PacketData>, before: seq<PacketData>)
    requires ops != [] && AllSent(max, ops[..|ops| - 1], before)
    requires var s, op := Run(max, ops[..|ops| - 1]), ops[|ops| - 1];
             ComesFrom(after, before, if op.Send? then [PacketData(s.localSequence, 0.0, op.size)] else [], op)
    ensures AllSent(max, ops, after)
  {
    hide Run, WasSent;
    var s, op := Run(max, ops[..|ops| - 1]), ops[|ops| - 1];
    if op.Send? {
      JustSent(max, ops);
    }
    forall p | p in after && exists q :: q in before && p == Later(q, op) ensures WasSent(max, ops, p) {
      var q :| q in before && p == Later(q, op);
      SentStays(max, ops, q);
    }
  }

  lemma JustSent(max: MaxSequence, ops: seq<Operation>)
    requires ops != [] && ops[|ops| - 1].Send?
    ensures var s := Run(max, ops[..|ops| - 1]);
            WasSent(max, ops, PacketData(s.localSequence, 0.0, ops[|ops| - 1].size))
  {
    hide Run;
    var n := |ops| - 1;
    assert SentIn(max, ops, PacketData(Run(max, ops[..n]).localSequence, 0.0, ops[n].size), n);
  }

  lemma ArrivedFrom(ops: seq<Operation>, after: seq<PacketData>, before: seq<PacketData>)
    requires ops != [] && AllReceived(ops[..|ops| - 1], before)
    requires var op := ops[|ops| - 1];
             ComesFrom(after, before, if op.Receive? then [PacketData(op.sequence, 0.0, op.size)] else [], op)
    ensures AllReceived(ops, after)
  {
    var op := ops[|ops| - 1];
    if op.Receive? {
      var n := |ops| - 1;
      assert ReceivedIn(ops, PacketData(op.sequence, 0.0, op.size), n);
    }
    hide ReceivedIn;
    forall p | p in after && exists q :: q in before && p == Later(q, op) ensures WasReceived(ops, p) {
      var q :| q in before && p == Later(q, op);
      ReceivedStays(ops, q);
    }
  }

  /** In every run, each entry of the sent, pending and acked queues is a packet that was sent, each
      entry of the received queue one that arrived, and their times are the time since then. */
  lemma {:induction false} AgesAreTimesSince(max: MaxSequence, ops: seq<Operation>)
    ensures AllSent(max, ops, Run(max, ops).sentQueue) && AllSent(max, ops, Run(max, ops).pendingAckQueue)
    ensures AllSent(max, ops, Run(max, ops).ackedQueue)
    ensures AllReceived(ops, Run(max, ops).receivedQueue)
  {
    if ops != [] {
      var before, op := ops[..|ops| - 1], ops[|ops| - 1];
      var s, t := Run(max, before), Run(max, ops);
      AgesAreTimesSince(max, before);
      StepFrom(s, op);
      assert t == Apply(s, op);
      BothSent(max, before, s.ackedQueue, s.pendingAckQueue);
      hide Run, Apply, AllSent, AllReceived, ComesFrom;
      SentFrom(max, ops, t.sentQueue, s.sentQueue);
      SentFrom(max, ops, t.pendingAckQueue, s.pendingAckQueue);
      NoneMore(t.ackedQueue, s.ackedQueue + s.pendingAckQueue,
               if op.Send? then [PacketData(s.localSequence, 0.0, op.size)] else [], op);
      SentFrom(max, ops, t.ackedQueue, s.ackedQueue + s.pendingAckQueue);
      ArrivedFrom(ops, t.receivedQueue, s.receivedQueue);
    }
  }

  lemma NoneMore(after: seq<PacketData>, before: seq<PacketData>, more: seq<PacketData>, op: Operation)
    requires ComesFrom(after, before, [], op)
    ensures ComesFrom(after, before, more, op)
  {
  }

  lemma BothSent(max: MaxSequence, ops: seq<Operation>, p: seq<PacketData>, q: seq<PacketData>)
    requires AllSent(max, ops, p) && AllSent(max, ops, q)
    ensures AllSent(max, ops, p + q)
  {
  }

  // When packets are given up

  /** An update leaves in the acked queue a suffix, whose front is not older than 1.999: everything
      before it was. The queue is in the order of sequences, so younger packets may go with older. */
  lemma AckedPacketsAreForgotten(s: LinkState, deltaTime: real)
    ensures var aged, left := Aged(s.ackedQueue, deltaTime), AfterUpdate(s, deltaTime).ackedQueue;
            && |left| <= |aged| && left == aged[|aged| - |left|..]
            && (left != [] ==> left[0].time <= 1.999)
            && forall i :: 0 <= i < |aged| - |left| ==> aged[i].time > 1.999
  {
    DropWhileIsSuffix(Aged(s.ackedQueue, deltaTime), OlderThan(RTT_MAXIMUM * 2.0 - EPSILON));
    hide Aged, Pruned, DropWhile, ToUInt32;
  }

  // The estimate of the round trip time

  function Times(q: seq<PacketData>): seq<real> {
    if q == [] then [] else [q[0].time] + Times(q[1..])
  }

  /** The ages at which packets were acked, in the order they were. */
  ghost function Samples(max: MaxSequence, ops: seq<Operation>): seq<real> {
    if ops == [] then []
    else
      var before, last := ops[..|ops| - 1], ops[|ops| - 1];
      Samples(max, before) +
      match last
      case Ack(ack, ackBits) => Times(Keep(Run(max, before).pendingAckQueue, Acked(ack, ackBits, max)))
      case _ => []
  }

  ghost function NineTenths(n: nat): real {
    if n == 0 then 1.0 else 0.9 * NineTenths(n - 1)
  }

  /** What a sample weighs that is followed by n others. */
  ghost function Share(n: nat, sample: real): real {
    0.1 * NineTenths(n) * sample
  }

  /** A tenth of the last sample, and of each earlier one nine tenths of the weight of the next. */
  ghost function Weighted(samples: seq<real>): real {
    if samples == [] then 0.0 else Share(|samples| - 1, samples[0]) + Weighted(samples[1..])
  }

  lemma {:induction false} NineTenthsMultiply(m: nat, n: nat)
    ensures NineTenths(m + n) == NineTenths(m) * NineTenths(n)
  {
    if m > 0 {
      NineTenthsMultiply(m - 1, n);
      assert 0.9 * (NineTenths(m - 1) * NineTenths(n)) == 0.9 * NineTenths(m - 1) * NineTenths(n);
    }
  }

  /** The weights shrink as `n` more samples come. */
  lemma SharesShrink(m: nat, n: nat, sample: real, rest: real)
    ensures (Share(m, sample) + rest) * NineTenths(n) == Share(m + n, sample) + rest * NineTenths(n)
  {
    NineTenthsMultiply(m, n);
    hide NineTenths;
    Distribute(NineTenths(m), NineTenths(n), sample, rest);
  }

  lemma Distribute(p: real, q: real, sample: real, rest: real)
    ensures (0.1 * p * sample + rest) * q == 0.1 * (p * q) * sample + rest * q
  {
    var part := 0.1 * p * sample;
    assert (part + rest) * q == part * q + rest * q;
    assert part * q == 0.1 * (p * q) * sample;
  }

  lemma {:induction false} WeightedAppend(a: seq<real>, b: seq<real>)
    ensures Weighted(a + b) == Weighted(a) * NineTenths(|b|) + Weighted(b)
  {
    hide NineTenths, Share;
    if a == [] {
      assert a + b == b;
    } else {
      assert (a + b)[0] == a[0] && (a + b)[1..] == a[1..] + b;
      WeightedAppend(a[1..], b);
      SharesShrink(|a| - 1, |b|, a[0], Weighted(a[1..]));
    }
  }

  lemma {:induction false} SmoothingWeighs(rtt: real, q: seq<PacketData>)
    ensures |Times(q)| == |q|
    ensures SmoothedRtt(rtt, q) == rtt * NineTenths(|q|) + Weighted(Times(q))
    decreases |q|
  {
    hide NextRtt, Share;
    if q != [] {
      SmoothingWeighs(NextRtt(rtt, q[0]), q[1..]);
      assert Times(q)[1..] == Times(q[1..]);
      OneSample(rtt, q[0], |q| - 1);
    }
  }

  lemma OneSample(rtt: real, p: PacketData, n: nat)
    ensures NextRtt(rtt, p) * NineTenths(n) == rtt * NineTenths(n + 1) + Share(n, p.time)
  {
    var q := NineTenths(n);
    assert (rtt + (p.time - rtt) * 0.1) * q == rtt * (0.9 * q) + 0.1 * q * p.time;
  }

  lemma SamplesAppend(samples: seq<real>, q: seq<PacketData>)
    ensures SmoothedRtt(Weighted(samples), q) == Weighted(samples + Times(q))
  {
    hide *;
    SmoothingWeighs(Weighted(samples), q);
    WeightedAppend(samples, Times(q));
  }

  /** The estimate after any run is the weighted sum of the ages at which packets were acked. */
  lemma {:induction false} RttIsWeightedSum(max: MaxSequence, ops: seq<Operation>)
    ensures Run(max, ops).rtt == Weighted(Samples(max, ops)) && Run(max, ops).max == max
  {
    if ops != [] {
      var before, last := ops[..|ops| - 1], ops[|ops| - 1];
      RttIsWeightedSum(max, before);
      RttStays(Run(max, before), last);
      var s := Run(max, before);
      assert Run(max, ops) == Apply(s, last);
      hide Weighted, NineTenths, Times, Run, Apply, SmoothedRtt;
      if last.Ack? {
        var taken := Keep(s.pendingAckQueue, Acked(last.ack, last.ackBits, max));
        SamplesAppend(Samples(max, before), taken);
      } else {
        assert Samples(max, before) + [] == Samples(max, before);
      }
    }
  }

  lemma RttStays(s: LinkState, op: Operation)
    ensures Apply(s, op).max == s.max
    ensures if op.Ack?
            then Apply(s, op).rtt == SmoothedRtt(s.rtt, Keep(s.pendingAckQueue, Acked(op.ack, op.ackBits, s.max)))
            else Apply(s, op).rtt == s.rtt
  {
    hide Keep, InsertAll, Sequences, SmoothedRtt, ToUInt32, Aged, DropWhile, Pruned, Holds, IsMoreRecent;
  }
}
