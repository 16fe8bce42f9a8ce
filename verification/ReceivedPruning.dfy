/** Pruning of the received queue: what it keeps, and exactly how far out of order packets may
    arrive before it changes the acks that are sent. */
module ReceivedPruning {
  import opened SequenceNumbers
  import opened PacketQueues
  import opened AckFields
  import opened Reliability
  import opened LinkRuns

  /** `numbers` were received while `ack` was the newest, all within half the sequence range. */
  ghost predicate HalfRangeUpTo(numbers: seq<nat>, ack: nat, max: nat) {
    forall i :: 0 <= i < |numbers| ==> numbers[i] <= ack && ack - numbers[i] <= max / 2
  }

  /** No packet is more than `lead` newer than the one that arrived last. */
  ghost predicate LeadsByAtMost(numbers: seq<nat>, lead: nat) {
    numbers != [] ==> forall i :: 0 <= i < |numbers| ==> numbers[i] <= numbers[|numbers| - 1] + lead
  }

  /** The greatest lead with which pruning still recognises every newer packet as newer. */
  function LeadLimit(max: nat): int {
    (max + 1) / 2 - 35
  }

  /** How far back the packets that are kept reach. */
  function Reach(latest: nat, max: nat): nat {
    if SequenceOf(latest, max) >= RECEIVE_WINDOW then 34 else 35
  }

  lemma TooOldByNumber(n: nat, latest: nat, max: MaxSequence)
    requires max > 68 && Distance(n, latest) <= max / 2 && n <= latest + LeadLimit(max)
    ensures IsMoreRecent(SequenceOf(n, max), MinimumSequence(SequenceOf(latest, max), max), max) <==>
            n + Reach(latest, max) > latest
  {
    if n >= latest {
      SequenceDifference(n, latest, max);
    } else {
      SequenceDifference(latest, n, max);
    }
    var l := SequenceOf(latest, max);
    if l < RECEIVE_WINDOW {
      FitsUInt32(max - (RECEIVE_WINDOW - l));
    }
    hide SequenceOf, ToUInt32;
  }

  /** When the packet that arrived last is itself too old. A minimum below zero wraps in 32 bits, and
      then it is not. */
  lemma LatestIsTooOldExactly(l: nat, max: MaxSequence)
    requires l <= MAX_U32
    ensures !IsMoreRecent(l, MinimumSequence(l, max), max) <==>
              if l >= RECEIVE_WINDOW then max < 68 else max + l >= 34 && (max <= 22 || 34 <= max <= 68)
  {
    if l < RECEIVE_WINDOW {
      var m := max - (RECEIVE_WINDOW - l);
      if m >= 0 {
        FitsUInt32(m);
      } else {
        NegativeWraps(m);
      }
    }
    hide ToUInt32;
  }

  /** Pruning never empties the queue, whatever is in it: the packet that arrived last stays. */
  lemma PruningKeepsTheLatest(q: seq<PacketData>, max: MaxSequence)
    requires max > 68 && q != [] && InRange(q, MAX_U32)
    ensures Pruned(q, max) != [] && Pruned(q, max)[|Pruned(q, max)| - 1] == q[|q| - 1]
  {
    var latest := q[|q| - 1].sequence;
    var f := TooOld(MinimumSequence(latest, max), max);
    LatestIsTooOldExactly(latest, max);
    DropWhileIsSuffix(q, f);
    hide MinimumSequence, IsMoreRecent;
  }

  /** Some queue of sequences up to the given bound is emptied by pruning. */
  ghost predicate CanBeEmptied(max: MaxSequence, bound: nat) {
    exists q: seq<PacketData> :: q != [] && InRange(q, bound) && Pruned(q, max) == []
  }

  lemma EmptiedByOne(l: nat, max: MaxSequence, bound: nat)
    requires l <= bound && !IsMoreRecent(l, MinimumSequence(l, max), max)
    ensures CanBeEmptied(max, bound)
  {
    var q := [PacketData(l, 0.0, 0)];
    hide MinimumSequence, IsMoreRecent;
    assert q[1..] == [];
    assert Pruned(q, max) == [];
  }

  lemma EmptiedByItsLatest(q: seq<PacketData>, max: MaxSequence)
    requires q != [] && Pruned(q, max) == []
    ensures var l := q[|q| - 1].sequence; !IsMoreRecent(l, MinimumSequence(l, max), max)
  {
    DropWhileIsSuffix(q, TooOld(MinimumSequence(q[|q| - 1].sequence, max), max));
    hide MinimumSequence, IsMoreRecent;
  }

  /** For which max pruning can empty the queue: with sequences up to max, exactly for 17 to 22 and 34
      to 68; with any sequences, exactly up to 68. */
  lemma PruningCanEmptyExactly(max: MaxSequence)
    ensures CanBeEmptied(max, max) <==> 17 <= max <= 22 || 34 <= max <= 68
    ensures CanBeEmptied(max, MAX_U32) <==> max <= 68
  {
    hide MinimumSequence, IsMoreRecent;
    EmptyingIsBounded(max);
    if max < 68 {
      LatestIsTooOldExactly(34, max);
      EmptiedByOne(34, max, MAX_U32);
      if max >= 34 {
        EmptiedByOne(34, max, max);
      }
    }
    if 17 <= max <= 22 || max == 68 {
      var l := if max == 68 then 0 else max;
      LatestIsTooOldExactly(l, max);
      EmptiedByOne(l, max, max);
      EmptiedByOne(l, max, MAX_U32);
    }
  }

  lemma EmptyingIsBounded(max: MaxSequence)
    ensures CanBeEmptied(max, max) ==> 17 <= max <= 22 || 34 <= max <= 68
    ensures CanBeEmptied(max, MAX_U32) ==> max <= 68
  {
    hide MinimumSequence, IsMoreRecent, Pruned;
    forall q: seq<PacketData> | q != [] && InRange(q, MAX_U32) && Pruned(q, max) == []
      ensures max <= 68 && (InRange(q, max) ==> 17 <= max <= 22 || 34 <= max <= 68)
    {
      EmptiedByItsLatest(q, max);
      LatestIsTooOldExactly(q[|q| - 1].sequence, max);
      assert InRange(q, max) ==> q[|q| - 1].sequence <= max;
    }
  }

  lemma SequenceIsItself(n: nat, max: nat)
    requires n <= max
    ensures SequenceOf(n, max) == n
  {
  }

  /** An entry 33 or more before the ack neither ends the scan nor raises a bit. */
  lemma OldEntryIsNotReported(q: seq<PacketData>, n: nat, ack: nat, max: MaxSequence)
    requires q != [] && q[0].sequence == SequenceOf(n, max)
    requires n + 33 < ack && ack - n <= max / 2
    ensures FieldOf(q, SequenceOf(ack, max), max) == FieldOf(q[1..], SequenceOf(ack, max), max)
  {
    var a := SequenceOf(ack, max);
    StopsByNumber(q[0], n, ack, max);
    BitIndexOfNumber(n, ack, max);
    hide SequenceOf, BitIndex, StopsAt, IsMoreRecent;
    var r, rest := Reported(q, a, max), Reported(q[1..], a, max);
    assert r == [q[0]] + rest;
    forall k | 0 <= k < 32
      ensures Raises(r, a, max, k) <==> Raises(rest, a, max, k)
    {
      if Raises(rest, a, max, k) {
        var i :| 0 <= i < |rest| && BitIndex(rest[i].sequence, a, max) == k;
        assert BitIndex(r[i + 1].sequence, a, max) == k;
      }
    }
  }

  lemma {:induction false} DroppingIsNotReported(q: seq<PacketData>, numbers: seq<nat>, latest: nat, ack: nat,
                                                 max: MaxSequence)
    requires Carries(q, numbers, max) && HalfRangeUpTo(numbers, ack, max) && max > 68
    requires latest <= ack && ack - latest <= max / 2
    requires forall i :: 0 <= i < |numbers| ==> numbers[i] <= latest + LeadLimit(max)
    ensures var f := TooOld(MinimumSequence(SequenceOf(latest, max), max), max);
            FieldOf(DropWhile(q, f), SequenceOf(ack, max), max) == FieldOf(q, SequenceOf(ack, max), max)
  {
    var f := TooOld(MinimumSequence(SequenceOf(latest, max), max), max);
    if q != [] {
      TooOldByNumber(numbers[0], latest, max);
      if f(q[0]) {
        OldEntryIsNotReported(q, numbers[0], ack, max);
        DroppingIsNotReported(q[1..], numbers[1..], latest, ack, max);
      }
    }
    hide FieldOf, SequenceOf, MinimumSequence;
  }

  /** Pruning a queue in which no packet leads the last arrival by more than the limit changes
      no bit of any ack sent. */
  lemma PruningIsNotReported(q: seq<PacketData>, numbers: seq<nat>, ack: nat, max: MaxSequence)
    requires Carries(q, numbers, max) && HalfRangeUpTo(numbers, ack, max) && max > 68
    requires LeadLimit(max) >= 0 && LeadsByAtMost(numbers, LeadLimit(max))
    ensures FieldOf(Pruned(q, max), SequenceOf(ack, max), max) == FieldOf(q, SequenceOf(ack, max), max)
  {
    if q != [] {
      DroppingIsNotReported(q, numbers, numbers[|numbers| - 1], ack, max);
    }
  }

  ghost predicate ReportsAlike(q: seq<PacketData>, ack: nat, max: nat) {
    FieldOf(Pruned(q, max), SequenceOf(ack, max), max) == FieldOf(q, SequenceOf(ack, max), max)
  }

  /** Whatever was received within half the sequence range, with no packet more than `lead`
      ahead of the last arrival, pruning changes no ack. */
  ghost predicate PruningIsInvisible(lead: nat, max: MaxSequence) {
    forall q: seq<PacketData>, numbers: seq<nat>, ack: nat ::
      Carries(q, numbers, max) && HalfRangeUpTo(numbers, ack, max) && LeadsByAtMost(numbers, lead) ==>
        ReportsAlike(q, ack, max)
  }

  lemma {:induction false} DropFirst(q: seq<PacketData>, f: PacketData -> bool)
    requires |q| >= 2 && f(q[0]) && !f(q[1])
    ensures DropWhile(q, f) == q[1..]
  {
    assert q[1..][0] == q[1];
  }

  /** The packet before the ack is reported only when the ack no longer stands before it. */
  lemma HiddenBehindTheAck(q: seq<PacketData>, ack: nat, max: MaxSequence)
    requires |q| >= 2 && 0 < ack <= max && q[0].sequence == ack && q[1].sequence == ack - 1 && max > 1
    ensures FieldOf(q[1..], ack, max) != FieldOf(q, ack, max)
  {
    PacketBeforeTheAck(ack, max);
    hide BitIndex;
    assert Reported(q, ack, max) == [];
    assert q[1..][0] == q[1];
    assert Reported(q[1..], ack, max)[0] == q[1];
    assert FieldOf(q[1..], ack, max)[0] && !FieldOf(q, ack, max)[0];
  }

  lemma PacketBeforeTheAck(ack: nat, max: MaxSequence)
    requires 0 < ack <= max && max > 1
    ensures BitIndex(ack - 1, ack, max) == 0 && !IsMoreRecent(ack - 1, ack, max)
  {
  }

  /** The received queue of an endpoint, with the ack it sends. */
  ghost predicate Receives(max: MaxSequence, ops: seq<Operation>, q: seq<PacketData>, ack: nat) {
    Run(max, ops).receivedQueue == q && Run(max, ops).remoteSequence == ack
  }

  lemma RunLast(max: MaxSequence, ops: seq<Operation>, op: Operation)
    ensures Run(max, ops + [op]) == Apply(Run(max, ops), op)
  {
    assert (ops + [op])[..|ops|] == ops;
  }

  lemma {:induction false} KeepsMax(max: MaxSequence, ops: seq<Operation>)
    ensures Run(max, ops).max == max
  {
    if ops != [] {
      KeepsMax(max, ops[..|ops| - 1]);
      assert Run(max, ops) == Apply(Run(max, ops[..|ops| - 1]), ops[|ops| - 1]);
      hide Run, Pruned, DropWhile, Aged, Holds, IsMoreRecent, Keep, InsertAll, Sequences, SmoothedRtt, ToUInt32;
    }
  }

  /** A packet with a sequence that is not in the queue arrives. */
  lemma ReceivesOne(max: MaxSequence, ops: seq<Operation>, q: seq<PacketData>, ack: nat, sequence: nat)
    requires Receives(max, ops, q, ack) && !Holds(q, sequence)
    ensures Receives(max, ops + [Receive(sequence, 0)], q + [PacketData(sequence, 0.0, 0)],
                     if IsMoreRecent(sequence, ack, max) then sequence else ack)
  {
    RunLast(max, ops, Receive(sequence, 0));
    KeepsMax(max, ops);
    hide Run, Holds, IsMoreRecent;
  }

  /** The newest packet, the one before it and one far behind arrive on an endpoint that has received
      nothing so far, or only the newest. */
  lemma ReceivesTheRest(max: MaxSequence, ops: seq<Operation>, ack: nat, latest: nat) returns (all: seq<Operation>)
    requires 0 < ack <= max && latest < ack && !IsMoreRecent(ack - 1, ack, max) && !IsMoreRecent(latest, ack, max)
    requires Receives(max, ops, [PacketData(ack, 0.0, 0)], ack)
    ensures Receives(max, all, QueuePastTheLimit(ack, latest), ack)
  {
    hide IsMoreRecent, Receives;
    var q := [PacketData(ack, 0.0, 0)];
    if ack - 1 == latest {
      ReceivesOne(max, ops, q, ack, latest);
      all := ops + [Receive(latest, 0)];
      assert q + [PacketData(latest, 0.0, 0)] == [PacketData(ack, 0.0, 0), PacketData(latest, 0.0, 0)];
    } else {
      ReceivesOne(max, ops, q, ack, ack - 1);
      ReceivesOne(max, ops + [Receive(ack - 1, 0)], q + [PacketData(ack - 1, 0.0, 0)], ack, latest);
      all := ops + [Receive(ack - 1, 0)] + [Receive(latest, 0)];
      assert q + [PacketData(ack - 1, 0.0, 0)] + [PacketData(latest, 0.0, 0)] ==
             [PacketData(ack, 0.0, 0), PacketData(ack - 1, 0.0, 0), PacketData(latest, 0.0, 0)];
    }
  }

  /** For an even max the newest packet may be the first to arrive. */
  lemma ReceivesFirst(max: MaxSequence, ack: nat)
    requires 0 < ack <= max / 2
    ensures Receives(max, [Receive(ack, 0)], [PacketData(ack, 0.0, 0)], ack)
  {
    assert Receives(max, [], [], 0);
    ReceivesOne(max, [], [], 0, ack);
    assert [] + [Receive(ack, 0)] == [Receive(ack, 0)];
    assert [] + [PacketData(ack, 0.0, 0)] == [PacketData(ack, 0.0, 0)];
    hide Receives;
  }

  /** For an odd max it lies just past the half range of 0; packet 1 leads the way, and is pruned. */
  lemma ReceivesSecond(max: MaxSequence, ack: nat)
    requires max > 68 && ack == max / 2 + 1
    ensures Receives(max, [Receive(1, 0), Receive(ack, 0), Update(0.0)], [PacketData(ack, 0.0, 0)], ack)
  {
    var one, two := [Receive(1, 0)], [Receive(1, 0), Receive(ack, 0)];
    ReceivesFirst(max, 1);
    ReceivesOne(max, one, [PacketData(1, 0.0, 0)], 1, ack);
    assert one + [Receive(ack, 0)] == two;
    var q := [PacketData(1, 0.0, 0), PacketData(ack, 0.0, 0)];
    assert [PacketData(1, 0.0, 0)] + [PacketData(ack, 0.0, 0)] == q;
    assert Receives(max, two, q, ack);
    RunLast(max, two, Update(0.0));
    KeepsMax(max, two);
    assert two + [Update(0.0)] == [Receive(1, 0), Receive(ack, 0), Update(0.0)];
    hide Run;
    AgedAt(q, 0.0);
    assert Aged(q, 0.0) == q;
    DropFirst(q, TooOld(MinimumSequence(ack, max), max));
    assert q[1..] == [PacketData(ack, 0.0, 0)];
    assert Pruned(q, max) == q[1..];
    hide Pruned, Aged, DropWhile, ToUInt32, MinimumSequence;
  }

  function LatestBehind(max: MaxSequence): nat {
    if max % 2 == 0 then 0 else RECEIVE_WINDOW
  }

  function NumbersPastTheLimit(ack: nat, latest: nat): seq<nat>
    requires ack > 0
  {
    if ack - 1 == latest then [ack, latest] else [ack, ack - 1, latest]
  }

  function QueuePastTheLimit(ack: nat, latest: nat): seq<PacketData>
    requires ack > 0
  {
    if ack - 1 == latest then [PacketData(ack, 0.0, 0), PacketData(latest, 0.0, 0)]
    else [PacketData(ack, 0.0, 0), PacketData(ack - 1, 0.0, 0), PacketData(latest, 0.0, 0)]
  }

  lemma FrontIsTooOld(max: MaxSequence, ack: nat, latest: nat)
    requires max > 68 && latest == LatestBehind(max) && ack == latest + LeadLimit(max) + 1
    ensures !IsMoreRecent(ack, MinimumSequence(latest, max), max)
    ensures IsMoreRecent(ack - 1, MinimumSequence(latest, max), max)
    ensures IsMoreRecent(latest, MinimumSequence(latest, max), max)
  {
    var minimum := MinimumSequence(latest, max);
    assert minimum == if max % 2 == 0 then max - 34 else 0;
  }

  lemma QueueShowsPastTheLimit(max: MaxSequence, ack: nat, latest: nat)
    requires max > 68 && latest == LatestBehind(max) && ack == latest + LeadLimit(max) + 1
    ensures Carries(QueuePastTheLimit(ack, latest), NumbersPastTheLimit(ack, latest), max)
    ensures !ReportsAlike(QueuePastTheLimit(ack, latest), ack, max)
  {
    var q, numbers := QueuePastTheLimit(ack, latest), NumbersPastTheLimit(ack, latest);
    forall i | 0 <= i < |numbers| ensures SequenceOf(numbers[i], max) == numbers[i] {
      SequenceIsItself(numbers[i], max);
    }
    FrontIsTooOld(max, ack, latest);
    DropFirst(q, TooOld(MinimumSequence(latest, max), max));
    HiddenBehindTheAck(q, ack, max);
    hide SequenceOf, MinimumSequence, FieldOf, IsMoreRecent;
    assert Pruned(q, max) == q[1..];
  }

  /** A reordering just past the limit: the newest packet n, then the one before it, then one that
      is `LeadLimit + 1` behind n. Pruning takes n for old; the packet before n, until then hidden
      behind n, is now reported. For every max there is a run of an endpoint that leads there, and
      the ack is the one the endpoint sends. */
  lemma PruningShowsPastTheLimit(max: MaxSequence)
    returns (ops: seq<Operation>, q: seq<PacketData>, numbers: seq<nat>, ack: nat)
    requires max > 68
    ensures Receives(max, ops, q, SequenceOf(ack, max))
    ensures Carries(q, numbers, max) && HalfRangeUpTo(numbers, ack, max)
    ensures LeadsByAtMost(numbers, LeadLimit(max) + 1)
    ensures !ReportsAlike(q, ack, max)
  {
    hide Receives, ReportsAlike, Carries;
    var latest := LatestBehind(max);
    ack := latest + LeadLimit(max) + 1;
    numbers, q := NumbersPastTheLimit(ack, latest), QueuePastTheLimit(ack, latest);
    if max % 2 == 0 {
      ReceivesFirst(max, ack);
      ops := ReceivesTheRest(max, [Receive(ack, 0)], ack, latest);
    } else {
      ReceivesSecond(max, ack);
      ops := ReceivesTheRest(max, [Receive(1, 0), Receive(ack, 0), Update(0.0)], ack, latest);
    }
    SequenceIsItself(ack, max);
    QueueShowsPastTheLimit(max, ack, latest);
  }

  /** The same of the queues and acks an endpoint can really have. */
  ghost predicate PruningIsInvisibleInRuns(lead: nat, max: MaxSequence) {
    forall ops: seq<Operation>, q: seq<PacketData>, numbers: seq<nat>, ack: nat ::
      Receives(max, ops, q, SequenceOf(ack, max)) &&
      Carries(q, numbers, max) && HalfRangeUpTo(numbers, ack, max) && LeadsByAtMost(numbers, lead) ==>
        ReportsAlike(q, ack, max)
  }

  /** Pruning is invisible exactly up to the limit, in any queue and in those an endpoint can have. */
  lemma PruningIsInvisibleUpToTheLimit(lead: nat, max: MaxSequence)
    requires max > 68
    ensures PruningIsInvisible(lead, max) <==> lead <= LeadLimit(max)
    ensures PruningIsInvisibleInRuns(lead, max) <==> lead <= LeadLimit(max)
  {
    hide Receives;
    if lead <= LeadLimit(max) {
      forall q: seq<PacketData>, numbers: seq<nat>, ack: nat |
        Carries(q, numbers, max) && HalfRangeUpTo(numbers, ack, max) && LeadsByAtMost(numbers, lead)
        ensures ReportsAlike(q, ack, max)
      {
        assert LeadsByAtMost(numbers, LeadLimit(max));
        PruningIsNotReported(q, numbers, ack, max);
      }
    } else {
      var ops, q, numbers, ack := PruningShowsPastTheLimit(max);
      assert LeadsByAtMost(numbers, lead);
      hide ReportsAlike, LeadsByAtMost, HalfRangeUpTo, Carries;
    }
  }
}
