/** The ack bitfield: built by the receiver from its received packets, read by the sender
    against its pending ones. */
module AckFields {
  import opened SequenceNumbers
  import opened PacketQueues

  /** A 32-bit word as its bits, lowest first. Bit k stands for the sequence k + 1 steps
      before the ack. */
  type AckField = bits: seq<bool> | |bits| == 32 witness NO_BITS

  const NO_BITS: seq<bool> := seq(32, i => false)

  predicate StopsAt(p: PacketData, ack: nat, max: nat) {
    p.sequence == ack || IsMoreRecent(p.sequence, ack, max)
  }

  /** The part of the received queue that is reported: up to the first entry that is the ack
      or newer. */
  function Reported(q: seq<PacketData>, ack: nat, max: nat): (r: seq<PacketData>)
    ensures r <= q
    ensures forall i :: 0 <= i < |r| ==> !StopsAt(r[i], ack, max)
    ensures |r| < |q| ==> StopsAt(q[|r|], ack, max)
  {
    if q == [] || StopsAt(q[0], ack, max) then [] else [q[0]] + Reported(q[1..], ack, max)
  }

  /** One of the packets `q` is the one that bit `k` of an ack of `ack` stands for. */
  predicate Raises(q: seq<PacketData>, ack: nat, max: nat, k: int) {
    exists i :: 0 <= i < |q| && BitIndex(q[i].sequence, ack, max) == k
  }

  function FieldOf(q: seq<PacketData>, ack: nat, max: nat): AckField {
    seq(32, k => Raises(Reported(q, ack, max), ack, max, k))
  }

  /** No shift in building the field is undefined. */
  ghost predicate ReportIsDefined(q: seq<PacketData>, ack: nat, max: nat) {
    forall i :: 0 <= i < |Reported(q, ack, max)| ==> ShiftIsDefined(q[i].sequence, ack, max)
  }

  /** As long as no sequence beyond max has arrived, none is. */
  lemma ReportInRangeIsDefined(q: seq<PacketData>, ack: nat, max: MaxSequence)
    requires InRange(q, max) && ack <= MAX_U32
    ensures ReportIsDefined(q, ack, max)
  {
    forall i | 0 <= i < |Reported(q, ack, max)| ensures ShiftIsDefined(q[i].sequence, ack, max) {
      ShiftIsUndefinedExactly(q[i].sequence, ack, max);
    }
  }

  /** Sequences and ack are any numbers, as long as the shifts are defined. */
  method GenerateAckBits(ack: nat, receivedQueue: PacketQueue, max: MaxSequence) returns (ackBits: AckField)
    requires ReportIsDefined(receivedQueue.items, ack, max)
    ensures ackBits == FieldOf(receivedQueue.items, ack, max)
  {
    ackBits := NO_BITS;
    var q := receivedQueue.items;
    ghost var reported := Reported(q, ack, max);
    for i := 0 to |q|
      invariant i <= |reported|
      invariant forall k :: 0 <= k < 32 ==> ackBits[k] == Raises(reported[..i], ack, max, k)
    {
      if q[i].sequence == ack || IsMoreRecent(q[i].sequence, ack, max) {
        break;
      }
      var bitIndex := BitIndex(q[i].sequence, ack, max);
      assert ShiftIsDefined(q[i].sequence, ack, max);
      hide BitIndex, IsMoreRecent;
      if bitIndex <= 31 {
        ackBits := ackBits[bitIndex := true];
      }
      assert reported[..i + 1] == reported[..i] + [q[i]];
    }
    assert reported[..|reported|] == reported;
  }

  /** The sender's reading of an ack: is the pending packet `sequence` acknowledged? */
  predicate WasAcked(sequence: nat, ack: nat, ackBits: AckField, max: nat) {
    sequence == ack ||
    (!IsMoreRecent(sequence, ack, max) &&
     var bitIndex := BitIndex(sequence, ack, max);
     0 <= bitIndex <= 31 && ackBits[bitIndex])
  }

  // The codec, in terms of packet numbers

  lemma StopsByNumber(p: PacketData, n: nat, ack: nat, max: nat)
    requires p.sequence == SequenceOf(n, max) && Distance(n, ack) <= max / 2
    ensures StopsAt(p, SequenceOf(ack, max), max) <==> n >= ack
  {
    RecentIsNewer(n, ack, max);
  }

  /** Index of the first number that is `ack` or newer. */
  function FirstAtLeast(numbers: seq<nat>, ack: nat): (k: nat)
    ensures k <= |numbers|
    ensures forall i :: 0 <= i < k ==> numbers[i] < ack
    ensures k < |numbers| ==> numbers[k] >= ack
  {
    if numbers == [] || numbers[0] >= ack then 0 else 1 + FirstAtLeast(numbers[1..], ack)
  }

  lemma ReportedByNumber(q: seq<PacketData>, numbers: seq<nat>, ack: nat, max: nat)
    requires Carries(q, numbers, max) && WithinHalfRange(numbers, ack, max)
    ensures |Reported(q, SequenceOf(ack, max), max)| == FirstAtLeast(numbers, ack)
  {
    var r := Reported(q, SequenceOf(ack, max), max);
    var k := FirstAtLeast(numbers, ack);
    forall i | 0 <= i < |q|
      ensures StopsAt(q[i], SequenceOf(ack, max), max) <==> numbers[i] >= ack
    {
      StopsByNumber(q[i], numbers[i], ack, max);
    }
    hide StopsAt;
    assert |r| < |q| ==> k <= |r|;
  }

  lemma BitIndexesByNumber(q: seq<PacketData>, numbers: seq<nat>, ack: nat, max: MaxSequence)
    requires Carries(q, numbers, max) && WithinHalfRange(numbers, ack, max)
    requires forall i :: 0 <= i < |numbers| ==> numbers[i] < ack
    ensures forall i :: 0 <= i < |q| ==> BitIndex(q[i].sequence, SequenceOf(ack, max), max) == ack - 1 - numbers[i]
  {
    forall i | 0 <= i < |q|
      ensures BitIndex(q[i].sequence, SequenceOf(ack, max), max) == ack - 1 - numbers[i]
    {
      BitIndexOfNumber(numbers[i], ack, max);
    }
  }

  /** Bit k says exactly whether packet ack - 1 - k arrived before the ack did. */
  lemma BitMeansArrivedBefore(q: seq<PacketData>, numbers: seq<nat>, ack: nat, max: MaxSequence, k: nat)
    requires Carries(q, numbers, max) && WithinHalfRange(numbers, ack, max) && k < 32
    ensures FieldOf(q, SequenceOf(ack, max), max)[k] <==>
            ack - 1 - k >= 0 && ack - 1 - k in numbers[..FirstAtLeast(numbers, ack)]
  {
    hide BitIndex, SequenceOf, IsMoreRecent, StopsAt, Reported, FirstAtLeast;
    var a := SequenceOf(ack, max);
    ReportedByNumber(q, numbers, ack, max);
    var before := numbers[..FirstAtLeast(numbers, ack)];
    var r := Reported(q, a, max);
    BitIndexesByNumber(r, before, ack, max);
    if ack - 1 - k >= 0 && ack - 1 - k in before {
      var i :| 0 <= i < |before| && before[i] == ack - 1 - k;
      assert BitIndex(r[i].sequence, a, max) == k;
    }
  }

  /** The sender takes packet n for acknowledged exactly when n is the ack itself or the bit of
      n is raised. */
  lemma AckedByNumber(n: nat, ack: nat, ackBits: AckField, max: MaxSequence)
    requires Distance(n, ack) <= max / 2
    ensures WasAcked(SequenceOf(n, max), SequenceOf(ack, max), ackBits, max) <==>
            n == ack || (ack - 32 <= n < ack && ackBits[ack - 1 - n])
  {
    RecentIsNewer(n, ack, max);
    if n < ack {
      BitIndexOfNumber(n, ack, max);
    }
    hide BitIndex, SequenceOf, IsMoreRecent;
  }

  /** The codec is exact. Whatever order the receiver's packets arrived in, as long as they and
      the pending packet lie within half the sequence range of the ack, the sender takes packet n
      for acknowledged exactly when n is the ack or arrived before it and is one of the 32
      packets numbered before it. */
  lemma CodecIsExact(q: seq<PacketData>, numbers: seq<nat>, ack: nat, n: nat, max: MaxSequence)
    requires Carries(q, numbers, max) && WithinHalfRange(numbers, ack, max)
    requires Distance(n, ack) <= max / 2
    ensures WasAcked(SequenceOf(n, max), SequenceOf(ack, max), FieldOf(q, SequenceOf(ack, max), max), max) <==>
            n == ack || (ack - 32 <= n < ack && n in numbers[..FirstAtLeast(numbers, ack)])
  {
    AckedByNumber(n, ack, FieldOf(q, SequenceOf(ack, max), max), max);
    if ack - 32 <= n < ack {
      BitMeansArrivedBefore(q, numbers, ack, max, ack - 1 - n);
    }
    hide WasAcked, FieldOf, FirstAtLeast, SequenceOf;
  }
}
