/** The order of the four queues over whole runs: what a validation of them would look for. */
module QueueOrder {
  import opened SequenceNumbers
  import opened PacketQueues
  import opened AckFields
  import opened Reliability
  import opened AckRuns
  import LinkRuns

  /** Every entry is more recent than the one before it. */
  ghost predicate IsSorted(q: seq<PacketData>, max: nat) {
    forall i :: 0 < i < |q| ==> IsMoreRecent(q[i].sequence, q[i - 1].sequence, max)
  }

  lemma SortedByNumber(q: seq<PacketData>, numbers: seq<nat>, max: nat)
    requires Carries(q, numbers, max) && Increasing(numbers)
    requires forall i :: 0 < i < |numbers| ==> Distance(numbers[i], numbers[i - 1]) <= max / 2
    ensures IsSorted(q, max)
  {
    forall i | 0 < i < |q| ensures IsMoreRecent(q[i].sequence, q[i - 1].sequence, max) {
      RecentIsNewer(numbers[i], numbers[i - 1], max);
    }
  }

  // The sent and the pending queue

  /** The sent queue carries the packets sent last; what is pending was sent, in order. */
  ghost predicate SendOrder(node: Node) {
    && Carries(node.link.sentQueue, node.sent, node.link.max)
    && |node.sent| <= node.next
    && (forall i :: 0 <= i < |node.sent| ==> node.sent[i] == node.next - |node.sent| + i)
    && Increasing(node.pending)
    && (forall i :: 0 <= i < |node.pending| ==> node.pending[i] < node.next)
  }

  lemma SendKeepsSendOrder(node: Node, size: int)
    requires SendOrder(node) && SendSide(node)
    ensures SendOrder(Sent(node, size))
  {
    hide SequenceOf, ToUInt32, Accounted, Counts;
  }

  lemma ArrivalKeepsSendOrder(node: Node, p: Packet, size: int)
    requires SendOrder(node)
    ensures SendOrder(Arrived(node, p, size))
  {
    hide SequenceOf, IsMoreRecent, Holds, ToUInt32;
  }

  lemma {:induction false} SelectIsIncreasing(numbers: seq<nat>, f: nat -> bool)
    requires Increasing(numbers)
    ensures Increasing(Select(numbers, f))
  {
    if numbers != [] {
      SelectIsIncreasing(numbers[1..], f);
      var r := Select(numbers[1..], f);
      forall i | 0 <= i < |r| ensures numbers[0] < r[i] {
        SelectHolds(numbers[1..], f, r[i]);
      }
    }
  }

  lemma AckKeepsSendOrder(node: Node, p: Packet)
    requires SendOrder(node)
    ensures SendOrder(Acknowledged(node, p))
  {
    var f := LeavesOpen(p, node.link.max);
    SelectIsIncreasing(node.pending, f);
    var r := Select(node.pending, f);
    forall i | 0 <= i < |r| ensures r[i] < node.next {
      SelectHolds(node.pending, f, r[i]);
    }
    hide SequenceOf, Select, Keep, InsertAll, SmoothedRtt, Sequences, ToUInt32, AllPlaced, WasAcked;
  }

  lemma TickKeepsSendOrder(node: Node, deltaTime: real)
    requires SendOrder(node)
    ensures SendOrder(Ticked(node, deltaTime))
  {
    hide SequenceOf, ToUInt32, AfterUpdate, Pruned, DropWhile, Aged, OlderThan;
    LastCarries(node.link.sentQueue, node.sent, deltaTime, OlderThan(RTT_MAXIMUM + EPSILON), node.link.max);
    LinkRuns.UpdatedQueues(node.link, deltaTime);
    UpdatedReceivedQueue(node.link, deltaTime);
  }

  // The acked queue

  ghost predicate AllClose(numbers: seq<nat>, max: nat) {
    forall x, y :: x in numbers && y in numbers ==> Distance(x, y) <= max / 2
  }

  /** The acked queue carries packets that were acknowledged, in order and within half the range. */
  ghost predicate HeldOrder(node: Node) {
    && Carries(node.link.ackedQueue, node.held, node.link.max)
    && Increasing(node.held) && AllClose(node.held, node.link.max)
    && (forall n :: n in node.held ==> n in node.acked)
  }

  lemma {:induction false} OnlyPlace(numbers: seq<nat>, n: nat, k: nat)
    requires k <= |numbers| && Increasing(numbers[..k] + [n] + numbers[k..])
    ensures FirstAbove(numbers, n) == k
  {
    var r := numbers[..k] + [n] + numbers[k..];
    assert r[k] == n;
    forall i | 0 <= i < k ensures numbers[i] < n {
      assert r[i] == numbers[i];
    }
    if k < |numbers| {
      assert r[k + 1] == numbers[k];
    }
  }

  lemma PlacedHolds(numbers: seq<nat>, n: nat)
    ensures multiset(Placed(numbers, n)) == multiset(numbers) + multiset{n}
    ensures forall x :: x in Placed(numbers, n) <==> x in numbers || x == n
  {
    var k := FirstAbove(numbers, n);
    assert numbers == numbers[..k] + numbers[k..];
    hide FirstAbove;
    assert forall x :: x in Placed(numbers, n) <==> x in multiset(Placed(numbers, n));
    assert forall x :: x in numbers <==> x in multiset(numbers);
  }

  /** Inserting packets that are new and close to all others: the queue stays sorted and every one of
      them is in it. */
  lemma {:induction false} InsertsAll(queue: seq<PacketData>, held: seq<nat>, taken: seq<PacketData>, numbers: seq<nat>,
                                      max: nat)
    requires Carries(queue, held, max) && Increasing(held) && Carries(taken, numbers, max) && Increasing(numbers)
    requires AllClose(held + numbers, max) && forall n :: n in numbers ==> n !in held
    ensures Carries(InsertAll(queue, taken, max), AllPlaced(held, numbers), max)
    ensures Increasing(AllPlaced(held, numbers))
    ensures multiset(AllPlaced(held, numbers)) == multiset(held) + multiset(numbers)
    decreases |numbers|
  {
    hide SortedInsert, SequenceOf, Placed;
    if numbers != [] {
      var n, more := numbers[0], numbers[1..];
      var next := Placed(held, n);
      InsertsOne(queue, held, taken[0], n, more, max);
      PlacedHolds(held, n);
      assert numbers == [n] + more;
      assert forall x :: x in next + more <==> x in held + numbers;
      assert forall x :: x in more ==> x != n;
      InsertsAll(SortedInsert(queue, taken[0], max), next, taken[1..], more, max);
    }
  }

  lemma InsertsOne(queue: seq<PacketData>, held: seq<nat>, p: PacketData, n: nat, more: seq<nat>, max: nat)
    requires Carries(queue, held, max) && Increasing(held) && p.sequence == SequenceOf(n, max)
    requires AllClose(held + ([n] + more), max) && n !in held
    ensures Carries(SortedInsert(queue, p, max), Placed(held, n), max) && Increasing(Placed(held, n))
  {
    hide SequenceOf, SortedInsert;
    assert n in held + ([n] + more);
    assert WithinHalfRange(held, n, max) by {
      forall i | 0 <= i < |held| ensures Distance(held[i], n) <= max / 2 {
        assert held[i] in held + ([n] + more);
      }
    }
    var k := InsertKeepsOrder(queue, held, p, n, max);
    OnlyPlace(held, n, k);
  }

  /** What is acknowledged is close to what is still in the acked queue. */
  ghost predicate HeldInWindow(node: Node, p: Packet) {
    AllClose(node.held + Select(node.pending, Confirms(p, node.link.max)), node.link.max)
  }

  /** An ack drops nothing from the acked queue, old or new, and keeps its order. */
  lemma AckKeepsHeldOrder(node: Node, p: Packet)
    requires HeldOrder(node) && SendOrder(node) && SendSide(node) && HeldInWindow(node, p)
    ensures HeldOrder(Acknowledged(node, p))
    ensures var confirmed := Select(node.pending, Confirms(p, node.link.max));
            && multiset(Acknowledged(node, p).held) == multiset(node.held) + multiset(confirmed)
            && |Acknowledged(node, p).link.ackedQueue| == |node.link.ackedQueue| + |confirmed|
  {
    hide SequenceOf, WasAcked, Keep, Select, InsertAll, AllPlaced, SmoothedRtt, Sequences, ToUInt32, UpTo, IsMoreRecent;
    var q, max, f := node.link.pendingAckQueue, node.link.max, Confirms(p, node.link.max);
    var taken, confirmed := Keep(q, Acked(p.ackSequence, p.ackBits, max)), Select(node.pending, f);
    SelectCarries(q, node.pending, Acked(p.ackSequence, p.ackBits, max), f, max);
    SelectIsIncreasing(node.pending, f);
    forall n | n in confirmed ensures n !in node.held {
      SelectHolds(node.pending, f, n);
      PendingIsNotAcked(node, n);
    }
    InsertsAll(node.link.ackedQueue, node.held, taken, confirmed, max);
    var held := AllPlaced(node.held, confirmed);
    HoldsBoth(held, node.held, confirmed);
    hide SendSide, Carries, SendOrder;
  }

  lemma HoldsBoth(all: seq<nat>, a: seq<nat>, b: seq<nat>)
    requires multiset(all) == multiset(a) + multiset(b)
    ensures forall x :: x in all <==> x in a + b
    ensures |all| == |a| + |b|
  {
    assert forall x :: x in all <==> x in multiset(all);
    assert forall x :: x in a <==> x in multiset(a);
    assert forall x :: x in b <==> x in multiset(b);
    assert |multiset(all)| == |all| && |multiset(a)| == |a| && |multiset(b)| == |b|;
  }

  lemma PendingIsNotAcked(node: Node, n: nat)
    requires Accounted(node) && n in node.pending
    ensures n !in node.acked
  {
    UpToHasEachOnce(node.next, n);
    assert n in multiset(node.pending);
    assert (multiset(node.pending) + multiset(node.acked) + multiset(node.lost))[n] <= 1;
    assert n in node.acked <==> n in multiset(node.acked);
  }

  lemma TickKeepsHeldOrder(node: Node, deltaTime: real)
    requires HeldOrder(node)
    ensures HeldOrder(Ticked(node, deltaTime))
  {
    hide SequenceOf, ToUInt32, AfterUpdate, Pruned, DropWhile, Aged, OlderThan;
    LastCarries(node.link.ackedQueue, node.held, deltaTime, OlderThan(RTT_MAXIMUM * 2.0 - EPSILON), node.link.max);
    UpdatedAckedQueue(node.link, deltaTime);
    UpdatedReceivedQueue(node.link, deltaTime);
    var held := Ticked(node, deltaTime).held;
    assert node.held == node.held[..|node.held| - |held|] + held;
  }

  lemma UpdatedAckedQueue(s: LinkState, deltaTime: real)
    ensures AfterUpdate(s, deltaTime).ackedQueue ==
            DropWhile(Aged(s.ackedQueue, deltaTime), OlderThan(RTT_MAXIMUM * 2.0 - EPSILON))
  {
    hide Aged, Pruned, DropWhile, ToUInt32, OlderThan;
  }

  // The received queue

  /** The received queue keeps the order of arrival: it stays sorted by number exactly as long as each
      new packet is newer than the one that arrived before it. */
  lemma ReceivedStaysInOrder(node: Node, p: Packet, size: int)
    requires ReceiveSide(node) && p.sequence == SequenceOf(p.number, node.link.max)
    requires WithinHalfRange(node.got, p.number, node.link.max)
    ensures Increasing(Arrived(node, p, size).got) <==>
              Increasing(node.got) &&
              (p.number in node.got || node.got == [] || node.got[|node.got| - 1] < p.number)
  {
    KnownByNumber(node.link.receivedQueue, node.got, p.number, node.link.max);
    hide SequenceOf, IsMoreRecent, Holds, ToUInt32;
    var got, r := node.got, Arrived(node, p, size).got;
    if p.number !in got {
      assert r == got + [p.number];
      if Increasing(r) {
        assert forall i, j :: 0 <= i < j < |got| ==> r[i] == got[i] && r[j] == got[j];
        assert got != [] ==> r[|got| - 1] < r[|got|];
      }
    }
  }

  // Runs

  ghost predicate HeldAllowed(w: World, e: Event) {
    match e
    case ToA(index, _) => index < |w.toA| ==> HeldInWindow(w.a, w.toA[index])
    case ToB(index, _) => index < |w.toB| ==> HeldInWindow(w.b, w.toB[index])
    case _ => true
  }

  lemma DeliveryKeepsOrder(node: Node, p: Packet, size: int)
    requires SendOrder(node) && SendSide(node)
    ensures SendOrder(Delivered(node, p, size))
    ensures HeldOrder(node) && HeldInWindow(node, p) ==> HeldOrder(Delivered(node, p, size))
  {
    hide SendOrder, SendSide, Select, Acknowledged;
    ArrivalKeepsSendOrder(node, p, size);
    ArrivalKeepsSendSide(node, p, size);
    var arrived := Arrived(node, p, size);
    AckKeepsSendOrder(arrived, p);
    ArrivalKeepsHeld(node, p, size);
    if HeldOrder(node) && HeldInWindow(node, p) {
      AckKeepsHeldOrder(arrived, p);
    }
  }

  lemma ArrivalKeepsHeld(node: Node, p: Packet, size: int)
    ensures HeldOrder(node) ==> HeldOrder(Arrived(node, p, size))
    ensures HeldInWindow(node, p) ==> HeldInWindow(Arrived(node, p, size), p)
  {
    hide SequenceOf, IsMoreRecent, Holds, ToUInt32, Select, WasAcked;
  }

  lemma SendKeepsHeld(node: Node, size: int)
    ensures HeldOrder(node) ==> HeldOrder(Sent(node, size))
  {
    hide SequenceOf, ToUInt32;
  }

  /** What one step keeps of the node it concerns. */
  lemma StepKeepsOrder(w: World, e: Event)
    requires Allowed(w, e) && SendSide(w.a) && SendSide(w.b) && SendOrder(w.a) && SendOrder(w.b)
    ensures var v := Next(w, e);
            && SendOrder(v.a) && SendOrder(v.b)
            && (HeldAllowed(w, e) && HeldOrder(w.a) && HeldOrder(w.b) ==> HeldOrder(v.a) && HeldOrder(v.b))
  {
    hide SendOrder, SendSide, HeldOrder, HeldInWindow, InWindow, Sent, Delivered, Ticked, PacketFrom;
    match e
    case ASends(size) =>
      SendKeepsSendOrder(w.a, size);
      SendKeepsHeld(w.a, size);
    case BSends(size) =>
      SendKeepsSendOrder(w.b, size);
      SendKeepsHeld(w.b, size);
    case ToA(index, size) => DeliveryKeepsOrder(w.a, w.toA[index], size);
    case ToB(index, size) => DeliveryKeepsOrder(w.b, w.toB[index], size);
    case ATicks(deltaTime) =>
      TickKeepsSendOrder(w.a, deltaTime);
      if HeldOrder(w.a) {
        TickKeepsHeldOrder(w.a, deltaTime);
      }
    case BTicks(deltaTime) =>
      TickKeepsSendOrder(w.b, deltaTime);
      if HeldOrder(w.b) {
        TickKeepsHeldOrder(w.b, deltaTime);
      }
  }

  lemma FreshIsOrdered(max: MaxSequence)
    ensures SendOrder(FreshNode(max)) && HeldOrder(FreshNode(max))
  {
  }

  lemma SoundSends(node: Node, peer: Node, toNode: seq<Packet>)
    requires Sound(node, peer, toNode)
    ensures SendSide(node)
  {
    hide SendSide, ReceiveSide, Honest, Truthful;
  }

  lemma {:induction false} RunsKeepOrder(worlds: seq<World>, events: seq<Event>, max: MaxSequence, i: nat)
    requires IsRun(worlds, events, max) && i < |worlds|
    ensures SendOrder(worlds[i].a) && SendOrder(worlds[i].b)
    ensures (forall j :: 0 <= j < i ==> HeldAllowed(worlds[j], events[j])) ==>
              HeldOrder(worlds[i].a) && HeldOrder(worlds[i].b)
  {
    hide SendOrder, HeldOrder, HeldAllowed, Sound, Next, Allowed;
    if i == 0 {
      FreshIsOrdered(max);
    } else {
      RunsKeepOrder(worlds, events, max, i - 1);
      RunsAreSound(worlds, events, max, i - 1);
      var w := worlds[i - 1];
      SoundSends(w.a, w.b, w.toA);
      SoundSends(w.b, w.a, w.toB);
      hide SendSide;
      StepKeepsOrder(w, events[i - 1]);
    }
  }

  lemma SentIsSorted(node: Node)
    requires SendOrder(node) && node.link.max >= 2
    ensures IsSorted(node.link.sentQueue, node.link.max)
  {
    hide SequenceOf;
    SortedByNumber(node.link.sentQueue, node.sent, node.link.max);
  }

  lemma HeldIsSorted(node: Node)
    requires HeldOrder(node)
    ensures IsSorted(node.link.ackedQueue, node.link.max)
  {
    hide SequenceOf;
    SortedByNumber(node.link.ackedQueue, node.held, node.link.max);
  }

  ghost predicate SendQueuesSorted(node: Node) {
    IsSorted(node.link.sentQueue, node.link.max) && Increasing(node.pending)
  }

  ghost predicate AckedQueueSorted(node: Node) {
    IsSorted(node.link.ackedQueue, node.link.max)
  }

  lemma OrderMeansSorted(node: Node)
    requires SendOrder(node) && node.link.max >= 2
    ensures SendQueuesSorted(node)
    ensures HeldOrder(node) ==> AckedQueueSorted(node)
  {
    SentIsSorted(node);
    if HeldOrder(node) {
      HeldIsSorted(node);
    }
    hide HeldOrder, SequenceOf, IsSorted;
  }

  /** In every world of every run: the sent queue is sorted and what is pending is in order of number;
      and the acked queue is sorted as long as every ack came within half the range of it. */
  lemma QueuesStaySorted(worlds: seq<World>, events: seq<Event>, max: MaxSequence, i: nat)
    requires IsRun(worlds, events, max) && i < |worlds| && max >= 2
    ensures SendQueuesSorted(worlds[i].a) && SendQueuesSorted(worlds[i].b)
    ensures (forall j :: 0 <= j < i ==> HeldAllowed(worlds[j], events[j])) ==>
              AckedQueueSorted(worlds[i].a) && AckedQueueSorted(worlds[i].b)
  {
    RunsKeepOrder(worlds, events, max, i);
    KeepsMaxOf(worlds, events, max, i);
    hide IsRun, SendOrder, HeldOrder, HeldAllowed, SendQueuesSorted, AckedQueueSorted;
    OrderMeansSorted(worlds[i].a);
    OrderMeansSorted(worlds[i].b);
  }

  lemma {:induction false} KeepsMaxOf(worlds: seq<World>, events: seq<Event>, max: MaxSequence, i: nat)
    requires IsRun(worlds, events, max) && i < |worlds|
    ensures worlds[i].a.link.max == max && worlds[i].b.link.max == max
  {
    hide Allowed;
    if i > 0 {
      KeepsMaxOf(worlds, events, max, i - 1);
      StepKeepsMax(worlds[i - 1], events[i - 1]);
    }
    hide Next;
  }

  lemma StepKeepsMax(w: World, e: Event)
    requires Allowed(w, e)
    ensures Next(w, e).a.link.max == w.a.link.max && Next(w, e).b.link.max == w.b.link.max
  {
    hide InWindow, PacketFrom, AfterUpdate, Holds, Keep, InsertAll, Select, SmoothedRtt, Sequences, ToUInt32, AllPlaced;
    if e.ATicks? {
      UpdatedReceivedQueue(w.a.link, e.deltaTime);
    } else if e.BTicks? {
      UpdatedReceivedQueue(w.b.link, e.deltaTime);
    }
  }
}
