/** The lists of freshly acked packets that an endpoint hands out, over whole runs. */
module AckReports {
  import opened SequenceNumbers
  import opened PacketQueues
  import opened AckFields
  import opened Reliability
  import opened AckRuns

  datatype Side = SideA | SideB

  function NodeOf(w: World, side: Side): Node {
    if side == SideA then w.a else w.b
  }

  /** The node is updated, so its list of freshly acked packets is about to go. */
  predicate Updates(e: Event, side: Side) {
    if side == SideA then e.ATicks? else e.BTicks?
  }

  /** The lists that stood just before each update of the node so far, joined in order. */
  ghost function Collected(worlds: seq<World>, events: seq<Event>, side: Side, i: nat): seq<nat>
    requires |worlds| == |events| + 1 && i <= |events|
  {
    if i == 0 then []
    else
      Collected(worlds, events, side, i - 1) +
      if Updates(events[i - 1], side) then NodeOf(worlds[i - 1], side).link.acked else []
  }

  /** The sequences are those of the packets `numbers`, in the same order. */
  ghost predicate Names(sequences: seq<nat>, numbers: seq<nat>, max: nat) {
    && |sequences| == |numbers|
    && forall k :: 0 <= k < |numbers| ==> sequences[k] == SequenceOf(numbers[k], max)
  }

  lemma {:induction false} SequencesAt(q: seq<PacketData>)
    ensures forall i :: 0 <= i < |q| ==> Sequences(q)[i] == q[i].sequence
  {
    if q != [] {
      SequencesAt(q[1..]);
    }
  }

  lemma NamesJoin(a: seq<nat>, b: seq<nat>, c: seq<nat>, numbers: seq<nat>, more: seq<nat>, max: nat)
    requires Names(a + b, numbers, max) && Names(c, more, max)
    ensures Names(a + (b + c), numbers + more, max)
  {
    hide SequenceOf;
    assert a + (b + c) == a + b + c;
  }

  lemma TakenAreNamed(q: seq<PacketData>, numbers: seq<nat>, p: Packet, max: nat)
    requires Carries(q, numbers, max)
    ensures Names(Sequences(Keep(q, Acked(p.ackSequence, p.ackBits, max))), Select(numbers, Confirms(p, max)), max)
  {
    hide SequenceOf, WasAcked, Keep, Select, Sequences;
    SelectCarries(q, numbers, Acked(p.ackSequence, p.ackBits, max), Confirms(p, max), max);
    SequencesAt(Keep(q, Acked(p.ackSequence, p.ackBits, max)));
  }

  lemma DeliveredLists(node: Node, p: Packet, size: int)
    ensures var after, max := Delivered(node, p, size), node.link.max;
            && after.link.max == max
            && after.link.acked ==
               node.link.acked + Sequences(Keep(node.link.pendingAckQueue, Acked(p.ackSequence, p.ackBits, max)))
            && after.acked == node.acked + Select(node.pending, Confirms(p, max))
  {
    hide Holds, IsMoreRecent, ToUInt32, Keep, Select, InsertAll, SmoothedRtt, Sequences;
  }

  /** An ack appends the taken packets to the list. */
  lemma DeliveryAppends(before: seq<nat>, node: Node, p: Packet, size: int)
    requires SendSide(node) && Names(before + node.link.acked, node.acked, node.link.max)
    ensures var after := Delivered(node, p, size);
            Names(before + after.link.acked, after.acked, after.link.max)
  {
    hide Names, Delivered, Carries, Keep, Select, Sequences, Accounted, Counts;
    var q, max := node.link.pendingAckQueue, node.link.max;
    DeliveredLists(node, p, size);
    TakenAreNamed(q, node.pending, p, max);
    NamesJoin(before, node.link.acked, Sequences(Keep(q, Acked(p.ackSequence, p.ackBits, max))), node.acked,
              Select(node.pending, Confirms(p, max)), max);
  }

  lemma UpdateStartsAList(before: seq<nat>, node: Node, deltaTime: real)
    requires Names(before + node.link.acked, node.acked, node.link.max)
    ensures var after := Ticked(node, deltaTime);
            && after.link.acked == []
            && Names(before + node.link.acked + after.link.acked, after.acked, after.link.max)
  {
    hide SequenceOf, ToUInt32, Aged, DropWhile, Pruned, OlderThan;
  }

  lemma SendingLeavesTheList(before: seq<nat>, node: Node, size: int)
    requires Names(before + node.link.acked, node.acked, node.link.max)
    ensures var after := Sent(node, size);
            Names(before + after.link.acked, after.acked, after.link.max)
  {
    hide SequenceOf, ToUInt32;
  }

  lemma StepReports(w: World, e: Event, side: Side, before: seq<nat>)
    requires Allowed(w, e) && SendSide(NodeOf(w, side))
    requires var node := NodeOf(w, side);
             Names(before + node.link.acked, node.acked, node.link.max)
    ensures var node, after := NodeOf(w, side), NodeOf(Next(w, e), side);
            && Names(before + (if Updates(e, side) then node.link.acked else []) + after.link.acked, after.acked,
                     after.link.max)
            && (Updates(e, side) ==> after.link.acked == [])
  {
    hide Names, Sent, Delivered, Ticked, PacketFrom, InWindow, SendSide;
    var node := NodeOf(w, side);
    assert before + [] == before;
    match e
    case ASends(size) =>
      if side == SideA {
        SendingLeavesTheList(before, node, size);
      }
    case BSends(size) =>
      if side == SideB {
        SendingLeavesTheList(before, node, size);
      }
    case ToA(index, size) =>
      if side == SideA {
        DeliveryAppends(before, node, w.toA[index], size);
      }
    case ToB(index, size) =>
      if side == SideB {
        DeliveryAppends(before, node, w.toB[index], size);
      }
    case ATicks(deltaTime) =>
      if side == SideA {
        UpdateStartsAList(before, node, deltaTime);
      }
    case BTicks(deltaTime) =>
      if side == SideB {
        UpdateStartsAList(before, node, deltaTime);
      }
  }

  /** Every ack is handed out once: in every world of every run, the lists that stood just before each
      update of a node, joined in order with the one it has now, name exactly the packets it counts
      as acked, in the order they were acked and each once. So the list is empty after an update. */
  lemma {:induction false} AcksAreReportedOnce(worlds: seq<World>, events: seq<Event>, max: MaxSequence, side: Side,
                                               i: nat, n: nat)
    requires IsRun(worlds, events, max) && i < |worlds|
    ensures var node := NodeOf(worlds[i], side);
            && Names(Collected(worlds, events, side, i) + node.link.acked, node.acked, node.link.max)
            && multiset(node.acked)[n] <= 1
    ensures i > 0 && Updates(events[i - 1], side) ==> NodeOf(worlds[i], side).link.acked == []
  {
    hide Names, CountsTruly, Next, Allowed, SendSide, ReceiveSide, Honest, Truthful;
    AckedOnceInRuns(worlds, events, max, side, i, n);
    if i == 0 {
      AtTheStart(max);
    } else {
      AcksAreReportedOnce(worlds, events, max, side, i - 1, n);
      RunsAreSound(worlds, events, max, i - 1);
      StepReports(worlds[i - 1], events[i - 1], side, Collected(worlds, events, side, i - 1));
    }
  }

  lemma AckedOnceInRuns(worlds: seq<World>, events: seq<Event>, max: MaxSequence, side: Side, i: nat, n: nat)
    requires IsRun(worlds, events, max) && i < |worlds|
    ensures multiset(NodeOf(worlds[i], side).acked)[n] <= 1
  {
    AcksAreTruthful(worlds, events, max, i, n);
    hide IsRun;
  }

  lemma AtTheStart(max: MaxSequence)
    ensures var node := FreshNode(max);
            Names([] + node.link.acked, node.acked, node.link.max)
  {
  }
}
