/** Traffic that loses nothing: two endpoints that answer each other packet by packet stay within
    half the sequence range for ever, round after round and turn after turn of the sequences. */
module SteadyTraffic {
  import opened SequenceNumbers
  import opened PacketQueues
  import opened AckFields
  import opened Reliability
  import opened AckRuns
  import ReceivedPruning
  import LinkRuns

  function FirstNumbers(n: nat): seq<nat> {
    seq(n, i => i)
  }

  /** What a node has received after n packets arrived in order and were pruned now and then. */
  ghost predicate InOrder(node: Node, n: nat) {
    && Increasing(node.got)
    && node.latest == (if n == 0 then 0 else n - 1)
    && (forall i :: 0 <= i < |node.got| ==> n - 36 <= node.got[i] < n)
    && (if n == 0 then node.got == [] else node.got != [] && node.got[|node.got| - 1] == n - 1)
    && (node.received == {} <==> n == 0)
  }

  /** Nothing is pending but the packets from `from` on, and all before were acknowledged. */
  ghost predicate AllAcked(node: Node, from: nat, next: nat) {
    && from <= next == node.next
    && node.pending == FirstNumbers(next)[from..]
    && node.acked == FirstNumbers(from) && node.lost == []
  }

  /** A packet that is the next in order, and the ack it brings. */
  ghost predicate NextInOrder(node: Node, p: Packet, n: nat) {
    && p.number == n && p.sequence == SequenceOf(n, node.link.max)
    && p.ackSequence == SequenceOf(p.ack, node.link.max)
  }

  lemma InOrderIsInWindow(node: Node, p: Packet, n: nat)
    requires node.link.max >= 72 && InOrder(node, n) && p.number == n
    requires WithinHalfRange(node.pending, p.ack, node.link.max)
    ensures InWindow(node, p)
  {
  }

  /** The next packet in order is taken as the newest. */
  lemma ArrivalInOrder(node: Node, p: Packet, n: nat, size: int)
    requires node.link.max >= 72 && InOrder(node, n) && NextInOrder(node, p, n) && ReceiveSide(node)
    ensures var after := Arrived(node, p, size);
            && Increasing(after.got) && after.latest == n && after.received == node.received + {n}
            && after.got == node.got + [n]
            && after.pending == node.pending && after.acked == node.acked && after.lost == node.lost
            && after.next == node.next && after.link.max == node.link.max
            && after.link.pendingAckQueue == node.link.pendingAckQueue
  {
    KnownByNumber(node.link.receivedQueue, node.got, n, node.link.max);
    RecentIsNewer(n, node.latest, node.link.max);
    hide SequenceOf, IsMoreRecent, Holds, ToUInt32;
  }

  /** An ack takes the one pending packet it names. */
  lemma AckTakesIt(node: Node, p: Packet, n: nat)
    requires node.pending == [n] && p.ack == n && p.ackSequence == SequenceOf(n, node.link.max)
    requires Carries(node.link.pendingAckQueue, node.pending, node.link.max)
    ensures var after := Acknowledged(node, p);
            && after.pending == [] && after.acked == node.acked + [n] && after.link.pendingAckQueue == []
  {
    var q, max := node.link.pendingAckQueue, node.link.max;
    assert q == [q[0]] && q[0].sequence == p.ackSequence;
    SelectOne(n, Confirms(p, max));
    SelectOne(n, LeavesOpen(p, max));
    KeepOne(q[0], Unacked(p.ackSequence, p.ackBits, max));
    hide SequenceOf, InsertAll, SmoothedRtt, Sequences, ToUInt32, IsMoreRecent, BitIndex, Select, Keep;
    assert Confirms(p, max)(n) && !LeavesOpen(p, max)(n) && !Unacked(p.ackSequence, p.ackBits, max)(q[0]);
  }

  lemma SelectOne(n: nat, f: nat -> bool)
    ensures Select([n], f) == if f(n) then [n] else []
  {
    assert [n][1..] == [];
  }

  lemma KeepOne(p: PacketData, f: PacketData -> bool)
    ensures Keep([p], f) == if f(p) then [p] else []
  {
    assert [p][1..] == [];
  }

  lemma AckTakesNothing(node: Node, p: Packet)
    requires node.pending == [] && node.link.pendingAckQueue == []
    ensures var after := Acknowledged(node, p);
            && after.pending == [] && after.acked == node.acked && after.link.pendingAckQueue == []
  {
    hide InsertAll, SmoothedRtt, Sequences, ToUInt32;
  }

  /** Pruning after a packet arrived in order keeps the queue short and the packet in it. */
  lemma TickInOrder(node: Node, n: nat, deltaTime: real)
    requires node.link.max >= 72 && ReceiveSide(node)
    requires Increasing(node.got) && node.latest == n && node.got != [] && node.got[|node.got| - 1] == n
    requires forall i :: 0 <= i < |node.got| ==> n - 36 <= node.got[i] <= n
    requires node.received != {}
    ensures InOrder(Ticked(node, deltaTime), n + 1)
  {
    var q, max := Aged(node.link.receivedQueue, deltaTime), node.link.max;
    AgedAt(node.link.receivedQueue, deltaTime);
    UpdatedReceivedQueue(node.link, deltaTime);
    hide Aged, AfterUpdate;
    assert Carries(q, node.got, max);
    KeepsTheRecent(q, node.got, n, max);
  }

  lemma KeepsTheRecent(q: seq<PacketData>, got: seq<nat>, n: nat, max: MaxSequence)
    requires max >= 72 && Carries(q, got, max) && Increasing(got) && got != [] && got[|got| - 1] == n
    requires forall i :: 0 <= i < |got| ==> n - 36 <= got[i] <= n
    ensures 0 < |Pruned(q, max)| <= |q|
    ensures var left := Last(got, |Pruned(q, max)|);
            && Increasing(left) && left[|left| - 1] == n
            && forall i :: 0 <= i < |left| ==> n - 35 <= left[i] <= n
  {
    var minimum := MinimumSequence(SequenceOf(n, max), max);
    var f := TooOld(minimum, max);
    var r := DropWhile(q, f);
    DropWhileIsSuffix(q, f);
    ReceivedPruning.TooOldByNumber(n, n, max);
    hide SequenceOf, MinimumSequence, IsMoreRecent, DropWhile;
    assert !f(q[|q| - 1]);
    assert r != [];
    var left := Last(got, |r|);
    assert r[0] == q[|q| - |r|] && left[0] == got[|q| - |r|];
    ReceivedPruning.TooOldByNumber(left[0], n, max);
    hide TooOld;
    assert left[0] + 35 > n;
    forall i | 0 <= i < |left| ensures left[0] <= left[i] {
      assert left[i] == got[|q| - |r| + i];
    }
  }

  /** A packet sent just before is not lost by an update of at most a second. */
  lemma TickLosesNothing(node: Node, deltaTime: real)
    requires 0.0 <= deltaTime <= RTT_MAXIMUM && |node.link.pendingAckQueue| == |node.pending| <= 1
    requires forall i :: 0 <= i < |node.link.pendingAckQueue| ==> node.link.pendingAckQueue[i].time == 0.0
    ensures var after := Ticked(node, deltaTime);
            after.pending == node.pending && after.lost == node.lost
  {
    hide Pruned, ToUInt32;
    var q := node.link.pendingAckQueue;
    AgedAt(q, deltaTime);
    LinkRuns.UpdatedQueues(node.link, deltaTime);
    hide AfterUpdate, Aged;
    assert DropWhile(Aged(q, deltaTime), OlderThan(RTT_MAXIMUM + EPSILON)) == Aged(q, deltaTime);
  }

  // Rounds

  /** A node has taken the n-th packet of its peer as the newest. */
  ghost predicate TookPacket(node: Node, n: nat) {
    && Increasing(node.got) && node.latest == n && node.got != [] && node.got[|node.got| - 1] == n
    && (forall i :: 0 <= i < |node.got| ==> n - 36 <= node.got[i] <= n)
    && node.received != {}
  }

  /** A node takes its peer's n-th packet, which acknowledges the one packet pending, if any. */
  lemma TakesNext(node: Node, p: Packet, n: nat, first: nat, next: nat, size: int)
    requires node.link.max >= 72 && InOrder(node, n) && NextInOrder(node, p, n) && ReceiveSide(node)
    requires AllAcked(node, first, next) && next <= first + 1 && (first < next ==> p.ack == first)
    requires Carries(node.link.pendingAckQueue, node.pending, node.link.max)
    ensures InWindow(node, p)
    ensures var after := Delivered(node, p, size);
            && TookPacket(after, n) && AllAcked(after, next, next)
            && after.link.pendingAckQueue == [] && after.link.max == node.link.max
  {
    hide SequenceOf, IsMoreRecent, ToUInt32, Holds, Select, Keep, ReceiveSide;
    InOrderIsInWindow(node, p, n);
    ArrivalInOrder(node, p, n, size);
    var arrived := Arrived(node, p, size);
    assert n in arrived.received;
    AcksTheOne(arrived, p, first, next);
    AckKeepsReceived(arrived, p);
    hide Arrived, Acknowledged;
  }

  lemma AcksTheOne(node: Node, p: Packet, first: nat, next: nat)
    requires AllAcked(node, first, next) && next <= first + 1 && (first < next ==> p.ack == first)
    requires p.ackSequence == SequenceOf(p.ack, node.link.max)
    requires Carries(node.link.pendingAckQueue, node.pending, node.link.max)
    ensures var after := Acknowledged(node, p);
            && AllAcked(after, next, next) && after.link.pendingAckQueue == []
  {
    hide SequenceOf, Select, Keep;
    AckKeepsReceived(node, p);
    if first < next {
      assert FirstNumbers(next)[first..] == [first];
      AckTakesIt(node, p, first);
      assert FirstNumbers(first) + [first] == FirstNumbers(next);
    } else {
      assert node.pending == [];
      AckTakesNothing(node, p);
    }
    hide Acknowledged;
    assert FirstNumbers(next)[next..] == [];
  }

  lemma AckKeepsReceived(node: Node, p: Packet)
    ensures var after := Acknowledged(node, p);
            && after.got == node.got && after.latest == node.latest && after.received == node.received
            && after.next == node.next && after.lost == node.lost && after.link.max == node.link.max
  {
    hide InsertAll, SmoothedRtt, Sequences, ToUInt32, Keep, Select;
  }

  /** Sending adds one packet to what is pending, and the packet sent is the next in order. */
  lemma SendsNext(node: Node, peer: Node, next: nat, size: int)
    requires AllAcked(node, next, next) && node.link.pendingAckQueue == [] && SendSide(node) && ReceiveSide(node)
    requires peer.link.max == node.link.max
    ensures var after := Sent(node, size);
            && AllAcked(after, next, next + 1)
            && |after.link.pendingAckQueue| == 1 && after.link.pendingAckQueue[0].time == 0.0
            && after.got == node.got && after.latest == node.latest && after.received == node.received
            && after.link.max == node.link.max
    ensures NextInOrder(peer, PacketFrom(node), next) && PacketFrom(node).ack == node.latest
  {
    assert FirstNumbers(next)[next..] == [];
    assert FirstNumbers(next + 1)[next..] == [next];
    hide SequenceOf, ToUInt32, FieldOf, Accounted, Counts;
  }

  /** After n rounds: A's packets are all acknowledged, and B's but the last. */
  ghost predicate Steady(w: World, n: nat, max: MaxSequence) {
    && w.a.link.max == max && w.b.link.max == max
    && InOrder(w.a, n) && InOrder(w.b, n)
    && AllAcked(w.a, n, n) && AllAcked(w.b, if n == 0 then 0 else n - 1, n)
    && Sound(w.a, w.b, w.toA) && Sound(w.b, w.a, w.toB)
  }

  ghost predicate BothSound(w: World, max: MaxSequence) {
    && w.a.link.max == max && w.b.link.max == max
    && Sound(w.a, w.b, w.toA) && Sound(w.b, w.a, w.toB)
  }

  /** A has sent its n-th packet and B has taken it. */
  ghost predicate HalfWay(w: World, n: nat, max: MaxSequence) {
    && BothSound(w, max)
    && InOrder(w.a, n) && AllAcked(w.a, n, n + 1)
    && TookPacket(w.b, n) && AllAcked(w.b, n, n) && w.b.link.pendingAckQueue == []
  }

  /** B has answered and A has taken the answer. */
  ghost predicate Answered(w: World, n: nat, max: MaxSequence) {
    && BothSound(w, max)
    && TookPacket(w.a, n) && AllAcked(w.a, n + 1, n + 1) && w.a.link.pendingAckQueue == []
    && TookPacket(w.b, n) && AllAcked(w.b, n, n + 1)
    && |w.b.link.pendingAckQueue| == 1 && w.b.link.pendingAckQueue[0].time == 0.0
  }

  lemma FirstHalf(w: World, n: nat, max: MaxSequence, size: int) returns (v: World, u: World)
    requires max >= 72 && Steady(w, n, max)
    ensures v == Next(w, ASends(size))
    ensures Allowed(v, ToB(|w.toB|, size)) && u == Next(v, ToB(|w.toB|, size))
    ensures HalfWay(u, n, max)
  {
    hide Sent, Delivered, PacketFrom, SequenceOf, InOrder, AllAcked, TookPacket, InWindow;
    NothingPending(w.a, n);
    SendsNext(w.a, w.b, n, size);
    InOrderAfterSend(w.a, n, size);
    StepKeepsSound(w, ASends(size));
    v := Next(w, ASends(size));
    hide SendSide, ReceiveSide, Honest, Truthful;
    var p := PacketFrom(w.a);
    assert v.toB[|w.toB|] == p;
    AckOf(w.a, n);
    SidesOf(w.b, w.a, w.toB);
    TakesNext(w.b, p, n, if n == 0 then 0 else n - 1, n, size);
    StepKeepsSound(v, ToB(|w.toB|, size));
    u := Next(v, ToB(|w.toB|, size));
  }

  lemma SecondHalf(w: World, n: nat, max: MaxSequence, size: int) returns (v: World, u: World)
    requires max >= 72 && HalfWay(w, n, max)
    ensures v == Next(w, BSends(size))
    ensures Allowed(v, ToA(|w.toA|, size)) && u == Next(v, ToA(|w.toA|, size))
    ensures Answered(u, n, max)
  {
    hide Sent, Delivered, PacketFrom, SequenceOf, InOrder, AllAcked, TookPacket, InWindow, SendSide, ReceiveSide,
        Honest, Truthful;
    SidesOf(w.b, w.a, w.toB);
    SendsNext(w.b, w.a, n, size);
    TookAfterSend(w.b, n, size);
    StepKeepsSound(w, BSends(size));
    v := Next(w, BSends(size));
    var p := PacketFrom(w.b);
    assert v.toA[|w.toA|] == p;
    SidesOf(w.a, w.b, w.toA);
    TakesNext(w.a, p, n, n, n + 1, size);
    StepKeepsSound(v, ToA(|w.toA|, size));
    u := Next(v, ToA(|w.toA|, size));
  }

  lemma TimePasses(w: World, n: nat, max: MaxSequence, deltaTime: real) returns (v: World, u: World)
    requires max >= 72 && Answered(w, n, max) && 0.0 <= deltaTime <= RTT_MAXIMUM
    ensures v == Next(w, ATicks(deltaTime)) && u == Next(v, BTicks(deltaTime))
    ensures Steady(u, n + 1, max)
  {
    hide Ticked, SequenceOf, SendSide, ReceiveSide, Honest, Truthful, InOrder;
    StepKeepsSound(w, ATicks(deltaTime));
    v := Next(w, ATicks(deltaTime));
    StepKeepsSound(v, BTicks(deltaTime));
    u := Next(v, BTicks(deltaTime));
    SidesOf(w.a, w.b, w.toA);
    SidesOf(w.b, w.a, w.toB);
    TickInOrder(w.a, n, deltaTime);
    TickInOrder(w.b, n, deltaTime);
    assert FirstNumbers(n + 1)[n + 1..] == [] && FirstNumbers(n + 1)[n..] == [n];
    TickLosesNothing(w.a, deltaTime);
    TickLosesNothing(w.b, deltaTime);
    TickFields(w.a, deltaTime);
    TickFields(w.b, deltaTime);
  }

  lemma TickFields(node: Node, deltaTime: real)
    ensures var after := Ticked(node, deltaTime);
            after.acked == node.acked && after.next == node.next && after.link.max == node.link.max
  {
    UpdatedReceivedQueue(node.link, deltaTime);
    hide AfterUpdate;
  }

  lemma NothingPending(node: Node, n: nat)
    requires AllAcked(node, n, n) && SendSide(node)
    ensures node.link.pendingAckQueue == []
  {
    hide SequenceOf, Accounted, Counts;
  }

  lemma AckOf(node: Node, n: nat)
    requires InOrder(node, n)
    ensures node.latest == if n == 0 then 0 else n - 1
  {
  }

  lemma SidesOf(node: Node, peer: Node, toNode: seq<Packet>)
    requires Sound(node, peer, toNode)
    ensures SendSide(node) && ReceiveSide(node) && Carries(node.link.pendingAckQueue, node.pending, node.link.max)
  {
    hide SequenceOf, Accounted, Counts, ReceiveSide;
  }

  lemma InOrderAfterSend(node: Node, n: nat, size: int)
    requires InOrder(node, n)
    ensures InOrder(Sent(node, size), n)
  {
  }

  lemma TookAfterSend(node: Node, n: nat, size: int)
    requires TookPacket(node, n)
    ensures TookPacket(Sent(node, size), n)
  {
  }

  lemma GoesOn(worlds: seq<World>, events: seq<Event>, max: MaxSequence, e: Event, v: World)
    requires IsRun(worlds, events, max) && Allowed(worlds[|worlds| - 1], e) && v == Next(worlds[|worlds| - 1], e)
    ensures IsRun(worlds + [v], events + [e], max)
  {
    hide Allowed, Next;
  }

  /** However long it goes on, and however often the sequences wrap around: there is a run within
      half the sequence range in which n packets went each way, none was lost, and every packet
      of A and all but the last of B were acknowledged. */
  lemma {:induction false} SteadyRun(max: MaxSequence, n: nat, size: int, deltaTime: real)
    returns (worlds: seq<World>, events: seq<Event>)
    requires max >= 72 && 0.0 <= deltaTime <= RTT_MAXIMUM
    ensures IsRun(worlds, events, max)
    ensures Steady(worlds[|worlds| - 1], n, max)
    ensures worlds[|worlds| - 1].a.acked == FirstNumbers(n) && worlds[|worlds| - 1].a.lost == []
    ensures |worlds[|worlds| - 1].b.acked| == (if n == 0 then 0 else n - 1) && worlds[|worlds| - 1].b.lost == []
  {
    hide Steady, Allowed, Next, IsRun, HalfWay, Answered;
    if n == 0 {
      worlds, events := [Start(max)], [];
      StartsSteady(max);
    } else {
      worlds, events := SteadyRun(max, n - 1, size, deltaTime);
      OneMoreWorld(worlds, events, max);
      var w0 := worlds[|worlds| - 1];
      var w1, w2 := FirstHalf(w0, n - 1, max, size);
      var w3, w4 := SecondHalf(w2, n - 1, max, size);
      var w5, w6 := TimePasses(w4, n - 1, max, deltaTime);
      TicksAreAllowed(w4, deltaTime);
      TicksAreAllowed(w5, deltaTime);
      SendsAreAllowed(w0, size);
      SendsAreAllowed(w2, size);
      GoesOn(worlds, events, max, ASends(size), w1);
      worlds, events := worlds + [w1], events + [ASends(size)];
      GoesOn(worlds, events, max, ToB(|w0.toB|, size), w2);
      worlds, events := worlds + [w2], events + [ToB(|w0.toB|, size)];
      GoesOn(worlds, events, max, BSends(size), w3);
      worlds, events := worlds + [w3], events + [BSends(size)];
      GoesOn(worlds, events, max, ToA(|w2.toA|, size), w4);
      worlds, events := worlds + [w4], events + [ToA(|w2.toA|, size)];
      GoesOn(worlds, events, max, ATicks(deltaTime), w5);
      worlds, events := worlds + [w5], events + [ATicks(deltaTime)];
      GoesOn(worlds, events, max, BTicks(deltaTime), w6);
      worlds, events := worlds + [w6], events + [BTicks(deltaTime)];
    }
    SteadyMeans(worlds[|worlds| - 1], n, max);
  }

  lemma OneMoreWorld(worlds: seq<World>, events: seq<Event>, max: MaxSequence)
    requires IsRun(worlds, events, max)
    ensures |worlds| == |events| + 1
  {
    hide Allowed, Next;
  }

  lemma StartsSteady(max: MaxSequence)
    ensures Steady(Start(max), 0, max) && IsRun([Start(max)], [], max)
  {
    StartIsSound(max);
    hide Sound;
    assert FirstNumbers(0) == [] && FirstNumbers(0)[0..] == [];
  }

  lemma SteadyMeans(w: World, n: nat, max: MaxSequence)
    requires Steady(w, n, max)
    ensures w.a.acked == FirstNumbers(n) && w.a.lost == []
    ensures |w.b.acked| == (if n == 0 then 0 else n - 1) && w.b.lost == []
  {
    hide Sound, InOrder;
  }

  lemma TicksAreAllowed(w: World, deltaTime: real)
    ensures Allowed(w, ATicks(deltaTime)) && Allowed(w, BTicks(deltaTime))
  {
  }

  lemma SendsAreAllowed(w: World, size: int)
    ensures Allowed(w, ASends(size)) && Allowed(w, BSends(size))
  {
  }
}
