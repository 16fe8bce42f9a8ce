/** Sequences beyond max, which only a peer with another max sends: what they do to the ack bits. */
module ForeignSequences {
  import opened SequenceNumbers
  import opened PacketQueues
  import opened AckFields
  import opened Reliability
  import opened LinkRuns
  import ReceivedPruning

  /** On a fresh endpoint, with any max but the largest, one such packet is enough for the field to be
      built with an undefined shift. */
  lemma UndefinedShiftIsReached(max: MaxSequence)
    requires max < MAX_U32
    ensures var s := Run(max, [Receive(max + 1, 0)]);
            !ReportIsDefined(s.receivedQueue, s.remoteSequence, max)
  {
    var q := [PacketData(max + 1, 0.0, 0)];
    assert ReceivedPruning.Receives(max, [], [], 0);
    ReceivedPruning.ReceivesOne(max, [], [], 0, max + 1);
    assert [] + [Receive(max + 1, 0)] == [Receive(max + 1, 0)] && [] + q == q;
    assert !IsMoreRecent(max + 1, 0, max);
    ShiftIsUndefinedExactly(max + 1, 0, max);
    hide ShiftIsDefined, IsMoreRecent, Run;
    assert q[1..] == [] && Reported(q, 0, max) == q;
    assert !ShiftIsDefined(q[0].sequence, 0, max);
  }

  /** A run in which all shifts are defined and a packet is acknowledged that never arrived: sequence
      15 raises the bit of packet 4. */
  lemma ForeignSequenceLies()
    ensures var s := Run(10, [Receive(5, 0), Receive(15, 0), Receive(8, 0)]);
            && ReportIsDefined(s.receivedQueue, s.remoteSequence, 10)
            && s.remoteSequence == 8 && !Holds(s.receivedQueue, 4)
            && WasAcked(4, 8, FieldOf(s.receivedQueue, 8, 10), 10)
  {
    var a, b, c := PacketData(5, 0.0, 0), PacketData(15, 0.0, 0), PacketData(8, 0.0, 0);
    assert ReceivedPruning.Receives(10, [], [], 0);
    ReceivedPruning.ReceivesOne(10, [], [], 0, 5);
    assert [] + [Receive(5, 0)] == [Receive(5, 0)] && [] + [a] == [a];
    ReceivedPruning.ReceivesOne(10, [Receive(5, 0)], [a], 5, 15);
    assert [Receive(5, 0)] + [Receive(15, 0)] == [Receive(5, 0), Receive(15, 0)] && [a] + [b] == [a, b];
    ReceivedPruning.ReceivesOne(10, [Receive(5, 0), Receive(15, 0)], [a, b], 5, 8);
    assert [Receive(5, 0), Receive(15, 0)] + [Receive(8, 0)] == [Receive(5, 0), Receive(15, 0), Receive(8, 0)];
    assert [a, b] + [c] == [a, b, c];
    hide Run;
    ReportOfLie(a, b, c);
    NoFour(a, b, c);
  }

  lemma NoFour(a: PacketData, b: PacketData, c: PacketData)
    requires a.sequence == 5 && b.sequence == 15 && c.sequence == 8
    ensures !Holds([a, b, c], 4)
  {
  }

  lemma IndexesOfLie()
    ensures BitIndex(15, 8, 10) == 3 == BitIndex(4, 8, 10) && BitIndex(5, 8, 10) == 2
    ensures !IsMoreRecent(5, 8, 10) && !IsMoreRecent(15, 8, 10) && !IsMoreRecent(4, 8, 10)
  {
  }

  lemma ReportOfLie(a: PacketData, b: PacketData, c: PacketData)
    requires a.sequence == 5 && b.sequence == 15 && c.sequence == 8
    ensures ReportIsDefined([a, b, c], 8, 10) && WasAcked(4, 8, FieldOf([a, b, c], 8, 10), 10)
  {
    IndexesOfLie();
    hide BitIndex, IsMoreRecent;
    var q := [a, b, c];
    assert q[1..] == [b, c] && [b, c][1..] == [c];
    assert Reported([c], 8, 10) == [] && Reported([b, c], 8, 10) == [b] + [] && Reported(q, 8, 10) == [a] + [b];
    assert BitIndex(([a] + [b])[1].sequence, 8, 10) == 3;
    assert Raises([a] + [b], 8, 10, 3);
  }

  /** Every packet a sender with this max takes for acknowledged, but the ack itself, has arrived. */
  ghost predicate IsTruthful(q: seq<PacketData>, ack: nat, max: nat) {
    forall s: nat :: s <= max && s != ack && WasAcked(s, ack, FieldOf(q, ack, max), max) ==> Holds(q, s)
  }

  /** Sequence t shares its bit with a sequence s up to max. */
  predicate StandsFor(t: nat, s: nat, ack: nat, max: nat) {
    s <= max && !StopsAt(PacketData(s, 0.0, 0), ack, max) && 0 <= BitIndex(s, ack, max) <= 31 &&
    BitIndex(t, ack, max) == BitIndex(s, ack, max)
  }

  lemma IndexUpToMax(s: nat, ack: nat, max: MaxSequence)
    requires s <= max && ack <= MAX_U32 && s != ack && !IsMoreRecent(s, ack, max)
    ensures BitIndex(s, ack, max) == if s > ack then ack + (max - s) else ack - 1 - s
  {
    hide ToUInt32;
    if s > ack {
      FitsUInt32(max - s);
      FitsUInt32(ack + (max - s));
    } else {
      FitsUInt32(ack - 1);
      FitsUInt32(ack - 1 - s);
    }
  }

  /** Sequences up to max have their bits for themselves. */
  lemma BitsAreTheirOwn(s: nat, t: nat, ack: nat, max: MaxSequence)
    requires s <= max && t <= max && ack <= MAX_U32
    requires s != ack && !IsMoreRecent(s, ack, max) && t != ack && !IsMoreRecent(t, ack, max)
    ensures BitIndex(s, ack, max) == BitIndex(t, ack, max) <==> s == t
  {
    IndexUpToMax(s, ack, max);
    IndexUpToMax(t, ack, max);
    hide BitIndex;
  }

  /** In the ordinary case, past the ack by no more than max, a sequence beyond max has the bit of the
      one a turn before it. */
  lemma BeyondStandsForATurnBefore(t: nat, ack: nat, max: MaxSequence)
    requires ack <= max < t <= ack + max && t <= MAX_U32 && !IsMoreRecent(t, ack, max)
    requires !IsMoreRecent(t - max - 1, ack, max)
    ensures BitIndex(t, ack, max) == BitIndex(t - max - 1, ack, max) == ack + max - t
  {
    IndexUpToMax(t - max - 1, ack, max);
    hide ToUInt32;
    WrapsOnce(ack, max - t);
    FitsUInt32(ack + (max - t));
  }

  /** Whenever a reported sequence beyond max shares its bit with one up to max, that one has arrived. */
  ghost predicate ForeignersAreBacked(q: seq<PacketData>, ack: nat, max: nat) {
    forall i: nat, s: nat ::
      i < |Reported(q, ack, max)| && q[i].sequence > max && StandsFor(q[i].sequence, s, ack, max) ==> Holds(q, s)
  }

  /** The ack bits are truthful if and only if, for each reported sequence beyond max, the sequence up
      to max that shares its bit, if there is one, has arrived as well. */
  lemma TruthfulExactly(q: seq<PacketData>, ack: nat, max: MaxSequence)
    requires ack <= MAX_U32
    ensures IsTruthful(q, ack, max) <==> ForeignersAreBacked(q, ack, max)
  {
    var r := Reported(q, ack, max);
    if IsTruthful(q, ack, max) {
      forall i: nat, s: nat | i < |r| && q[i].sequence > max && StandsFor(q[i].sequence, s, ack, max)
        ensures Holds(q, s)
      {
        RaisesIt(q, ack, max, i, s);
      }
    }
    if ForeignersAreBacked(q, ack, max) {
      forall s: nat | s <= max && s != ack && WasAcked(s, ack, FieldOf(q, ack, max), max) ensures Holds(q, s) {
        var i := RaisedBy(q, ack, max, s);
        if q[i].sequence <= max {
          BitsAreTheirOwn(s, q[i].sequence, ack, max);
          hide BitIndex, IsMoreRecent;
          assert q[i].sequence == s;
        } else {
          hide BitIndex, IsMoreRecent;
          assert StandsFor(q[i].sequence, s, ack, max);
        }
      }
    }
  }

  lemma RaisesIt(q: seq<PacketData>, ack: nat, max: MaxSequence, i: nat, s: nat)
    requires i < |Reported(q, ack, max)| && StandsFor(q[i].sequence, s, ack, max)
    ensures s <= max && s != ack && WasAcked(s, ack, FieldOf(q, ack, max), max)
  {
    hide BitIndex, IsMoreRecent;
    var r, k := Reported(q, ack, max), BitIndex(s, ack, max);
    assert BitIndex(r[i].sequence, ack, max) == k;
    assert Raises(r, ack, max, k);
  }

  lemma RaisedBy(q: seq<PacketData>, ack: nat, max: MaxSequence, s: nat) returns (i: nat)
    requires s != ack && WasAcked(s, ack, FieldOf(q, ack, max), max)
    ensures i < |Reported(q, ack, max)| && !StopsAt(q[i], ack, max)
    ensures !IsMoreRecent(s, ack, max) && 0 <= BitIndex(s, ack, max) <= 31
    ensures BitIndex(q[i].sequence, ack, max) == BitIndex(s, ack, max)
  {
    hide BitIndex, IsMoreRecent;
    var r, k := Reported(q, ack, max), BitIndex(s, ack, max);
    assert Raises(r, ack, max, k);
    i :| 0 <= i < |r| && BitIndex(r[i].sequence, ack, max) == k;
  }
}
