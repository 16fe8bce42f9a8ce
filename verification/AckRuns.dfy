/** Two endpoints exchanging packets over a network that loses, duplicates and reorders.

    Next to the real state of each endpoint a node records which packet numbers its sequences
    stand for. A packet is never taken off the network, so it can be delivered any number of
    times, in any order, or never. */
module AckRuns {
  import opened SequenceNumbers
  import opened PacketQueues
  import opened AckFields
  import opened Reliability
  import LinkRuns

  /** What travels: sequence, ackSequence and ackBits. The rest says what they stand for;
      `informed` is whether the sender had received anything when it sent the packet. */
  datatype Packet = Packet(sequence: nat, ackSequence: nat, ackBits: AckField,
                           number: nat, ack: nat, informed: bool)

  datatype Node = Node(
    link: LinkState,
    next: nat,            // the number of the next packet to be sent
    pending: seq<nat>,    // the numbers of the pending queue
    acked: seq<nat>,      // the packets counted as acked, in that order
    lost: seq<nat>,       // the packets counted as lost
    got: seq<nat>,        // the numbers of the received queue
    sent: seq<nat>,       // the numbers of the sent queue
    held: seq<nat>,       // the numbers of the acked queue
    latest: nat,          // the number behind the remote sequence
    received: set<nat>,   // every packet that ever arrived
    misled: bool)         // whether an ack of an uninformed peer was processed

  function FreshNode(max: MaxSequence): Node {
    Node(Fresh(max), 0, [], [], [], [], [], [], 0, {}, false)
  }

  function Select(numbers: seq<nat>, f: nat -> bool): seq<nat> {
    if numbers == [] then []
    else if f(numbers[0]) then [numbers[0]] + Select(numbers[1..], f)
    else Select(numbers[1..], f)
  }

  function Confirms(p: Packet, max: nat): nat -> bool {
    (n: nat) => WasAcked(SequenceOf(n, max), p.ackSequence, p.ackBits, max)
  }

  function LeavesOpen(p: Packet, max: nat): nat -> bool {
    (n: nat) => !WasAcked(SequenceOf(n, max), p.ackSequence, p.ackBits, max)
  }

  function PacketFrom(node: Node): Packet {
    var link := node.link;
    Packet(link.localSequence, link.remoteSequence, FieldOf(link.receivedQueue, link.remoteSequence, link.max),
           node.next, node.latest, node.received != {})
  }

  function Sent(node: Node, size: int): Node {
    node.(link := AfterSend(node.link, size), next := node.next + 1, pending := node.pending + [node.next],
          sent := node.sent + [node.next])
  }

  function Arrived(node: Node, p: Packet, size: int): Node {
    var known := Holds(node.link.receivedQueue, p.sequence);
    var newer := IsMoreRecent(p.sequence, node.link.remoteSequence, node.link.max);
    node.(link := AfterReceive(node.link, p.sequence, size),
          got := if known then node.got else node.got + [p.number],
          latest := if !known && newer then p.number else node.latest,
          received := node.received + {p.number})
  }

  /** Index of the first number above n. */
  function FirstAbove(numbers: seq<nat>, n: nat): (k: nat)
    ensures k <= |numbers|
    ensures forall i :: 0 <= i < k ==> numbers[i] <= n
    ensures k < |numbers| ==> numbers[k] > n
  {
    if numbers == [] || numbers[0] > n then 0 else 1 + FirstAbove(numbers[1..], n)
  }

  function Placed(numbers: seq<nat>, n: nat): seq<nat> {
    var k := FirstAbove(numbers, n);
    numbers[..k] + [n] + numbers[k..]
  }

  function AllPlaced(numbers: seq<nat>, more: seq<nat>): seq<nat>
    decreases |more|
  {
    if more == [] then numbers else AllPlaced(Placed(numbers, more[0]), more[1..])
  }

  function Acknowledged(node: Node, p: Packet): Node {
    var confirmed := Select(node.pending, Confirms(p, node.link.max));
    node.(link := AfterAck(node.link, p.ackSequence, p.ackBits),
          pending := Select(node.pending, LeavesOpen(p, node.link.max)),
          acked := node.acked + confirmed,
          held := AllPlaced(node.held, confirmed),
          misled := node.misled || !p.informed)
  }

  function Delivered(node: Node, p: Packet, size: int): Node {
    Acknowledged(Arrived(node, p, size), p)
  }

  function Last(numbers: seq<nat>, k: nat): seq<nat> {
    if k <= |numbers| then numbers[|numbers| - k..] else numbers
  }

  function Ticked(node: Node, deltaTime: real): Node {
    var link := AfterUpdate(node.link, deltaTime);
    var left := Last(node.pending, |link.pendingAckQueue|);
    node.(link := link,
          pending := left,
          lost := node.lost + node.pending[..|node.pending| - |left|],
          got := Last(node.got, |link.receivedQueue|),
          sent := Last(node.sent, |link.sentQueue|),
          held := Last(node.held, |link.ackedQueue|))
  }

  // What holds of one node

  ghost function UpTo(n: nat): multiset<nat> {
    if n == 0 then multiset{} else UpTo(n - 1) + multiset{n - 1}
  }

  lemma {:induction false} UpToHasEachOnce(n: nat, k: nat)
    ensures UpTo(n)[k] == if k < n then 1 else 0
  {
    if n > 0 {
      UpToHasEachOnce(n - 1, k);
    }
  }

  /** Every packet sent so far is in exactly one of the three lists, once, and nothing else is. */
  ghost predicate Accounted(node: Node) {
    multiset(node.pending) + multiset(node.acked) + multiset(node.lost) == UpTo(node.next)
  }

  /** The 32-bit counter `n` counts the packets `numbers`. */
  ghost predicate Counts(n: nat, numbers: seq<nat>) {
    n == ToUInt32(|numbers|)
  }

  ghost predicate SendSide(node: Node) {
    var link := node.link;
    && Carries(link.pendingAckQueue, node.pending, link.max)
    && link.localSequence == SequenceOf(node.next, link.max)
    && Counts(link.ackedPackets, node.acked)
    && Counts(link.lostPackets, node.lost)
    && link.sentPackets == ToUInt32(node.next)
    && Accounted(node)
  }

  ghost predicate ReceiveSide(node: Node) {
    var link := node.link;
    && Carries(link.receivedQueue, node.got, link.max)
    && link.remoteSequence == SequenceOf(node.latest, link.max)
    && (forall i :: 0 <= i < |node.got| ==>
          node.got[i] in node.received && node.got[i] <= node.latest && node.latest - node.got[i] <= link.max / 2)
    && (forall n :: n in node.received ==> n <= node.latest)
    && (if node.received == {} then node.latest == 0 else node.latest in node.received)
  }

  // Sending

  lemma NextSequence(next: nat, max: nat)
    ensures SequenceOf(next + 1, max) == if SequenceOf(next, max) == max then 0 else SequenceOf(next, max) + 1
  {
    var turns := Division(next, max + 1);
    var r := SequenceOf(next, max);
    if r == max {
      assert (turns + 1) * (max + 1) == turns * (max + 1) + max + 1;
      RemainderIs(next + 1, turns + 1, 0, max + 1);
    } else {
      RemainderIs(next + 1, turns, r + 1, max + 1);
    }
  }

  lemma SendAccounts(node: Node, size: int)
    requires Accounted(node)
    ensures Accounted(Sent(node, size))
  {
    hide AfterSend;
  }

  lemma CountsOneMore(n: nat, k: nat)
    requires n == ToUInt32(k)
    ensures ToUInt32(n + 1) == ToUInt32(k + 1)
  {
  }

  lemma SendKeeps(node: Node, size: int)
    requires SendSide(node)
    ensures SendSide(Sent(node, size))
    ensures ReceiveSide(node) ==> ReceiveSide(Sent(node, size))
  {
    NextSequence(node.next, node.link.max);
    CountsOneMore(node.link.sentPackets, node.next);
    SendAccounts(node, size);
    SendKeepsReceiveSide(node, size);
    hide SequenceOf, ToUInt32, Accounted, ReceiveSide, Counts;
  }

  lemma SendKeepsReceiveSide(node: Node, size: int)
    ensures ReceiveSide(node) ==> ReceiveSide(Sent(node, size))
  {
    hide SequenceOf, ToUInt32;
  }

  // Receiving a packet

  /** The traffic stays within half the sequence range: the packet that arrives is that close to
      everything in the received queue, and the packet it acknowledges is that close to
      everything pending. */
  ghost predicate InWindow(node: Node, p: Packet) {
    && WithinHalfRange(node.got, p.number, node.link.max)
    && Distance(node.latest, p.number) <= node.link.max / 2
    && WithinHalfRange(node.pending, p.ack, node.link.max)
  }

  lemma KnownByNumber(q: seq<PacketData>, numbers: seq<nat>, n: nat, max: nat)
    requires Carries(q, numbers, max) && WithinHalfRange(numbers, n, max)
    ensures Holds(q, SequenceOf(n, max)) <==> n in numbers
  {
    ComparesByNumber(q, numbers, n, max);
    hide SequenceOf, IsMoreRecent, WithinHalfRange;
    if n in numbers {
      var i :| 0 <= i < |numbers| && numbers[i] == n;
      assert q[i].sequence == SequenceOf(n, max);
    }
  }

  lemma ArrivalKeepsReceiveSide(node: Node, p: Packet, size: int)
    requires ReceiveSide(node) && p.sequence == SequenceOf(p.number, node.link.max)
    requires WithinHalfRange(node.got, p.number, node.link.max) && Distance(node.latest, p.number) <= node.link.max / 2
    ensures ReceiveSide(Arrived(node, p, size))
  {
    KnownByNumber(node.link.receivedQueue, node.got, p.number, node.link.max);
    RecentIsNewer(p.number, node.latest, node.link.max);
    hide SequenceOf, IsMoreRecent, Holds, ToUInt32;
    var after := Arrived(node, p, size);
    assert p.number in after.received;
    assert after.latest == if p.number > node.latest then p.number else node.latest;
  }

  lemma ArrivalKeepsSendSide(node: Node, p: Packet, size: int)
    requires SendSide(node)
    ensures SendSide(Arrived(node, p, size))
  {
    hide SequenceOf, IsMoreRecent, Holds, ToUInt32, UpTo;
  }

  // Processing its ack

  lemma {:induction false} SelectCarries(q: seq<PacketData>, numbers: seq<nat>, f: PacketData -> bool,
                                         g: nat -> bool, max: nat)
    requires Carries(q, numbers, max)
    requires forall i :: 0 <= i < |q| ==> f(q[i]) == g(numbers[i])
    ensures Carries(Keep(q, f), Select(numbers, g), max)
  {
    if q != [] {
      SelectCarries(q[1..], numbers[1..], f, g, max);
    }
    hide SequenceOf;
  }

  lemma {:induction false} SelectSplits(numbers: seq<nat>, f: nat -> bool, g: nat -> bool)
    requires forall n :: f(n) != g(n)
    ensures multiset(Select(numbers, f)) + multiset(Select(numbers, g)) == multiset(numbers)
  {
    if numbers != [] {
      SelectSplits(numbers[1..], f, g);
      assert numbers == [numbers[0]] + numbers[1..];
    }
  }

  lemma {:induction false} SelectHolds(numbers: seq<nat>, f: nat -> bool, n: nat)
    ensures n in Select(numbers, f) <==> n in numbers && f(n)
  {
    if numbers != [] {
      SelectHolds(numbers[1..], f, n);
      assert numbers == [numbers[0]] + numbers[1..];
    }
  }

  /** The packets an ack of packet `ack` reports, out of those held in arrival order. */
  function ReportedNumbers(got: seq<nat>, ack: nat): nat -> bool {
    (n: nat) => n == ack || (ack - 32 <= n < ack && n in got[..FirstAtLeast(got, ack)])
  }

  function UnreportedNumbers(got: seq<nat>, ack: nat): nat -> bool {
    (n: nat) => !(n == ack || (ack - 32 <= n < ack && n in got[..FirstAtLeast(got, ack)]))
  }

  /** One endpoint builds the ack, the other processes it: from the pending packets exactly the
      reported ones are taken, in order, and the others stay. */
  lemma ProcessAckTakesExactlyTheReported(sender: LinkState, pending: seq<nat>, receiver: LinkState, got: seq<nat>,
                                          ack: nat)
    requires sender.max == receiver.max
    requires Carries(sender.pendingAckQueue, pending, sender.max) && WithinHalfRange(pending, ack, sender.max)
    requires Carries(receiver.receivedQueue, got, receiver.max) && WithinHalfRange(got, ack, receiver.max)
    requires receiver.remoteSequence == SequenceOf(ack, receiver.max)
    ensures var bits := FieldOf(receiver.receivedQueue, receiver.remoteSequence, receiver.max);
            var taken := Keep(sender.pendingAckQueue, Acked(receiver.remoteSequence, bits, sender.max));
            && Carries(AfterAck(sender, receiver.remoteSequence, bits).pendingAckQueue,
                       Select(pending, UnreportedNumbers(got, ack)), sender.max)
            && Carries(taken, Select(pending, ReportedNumbers(got, ack)), sender.max)
            && AfterAck(sender, receiver.remoteSequence, bits).acked == sender.acked + Sequences(taken)
  {
    hide WasAcked, FieldOf, FirstAtLeast, InsertAll, Sequences, ToUInt32, SmoothedRtt, IsMoreRecent, BitIndex, Keep,
        Select, SequenceOf;
    var q, max := sender.pendingAckQueue, sender.max;
    var bits := FieldOf(receiver.receivedQueue, receiver.remoteSequence, max);
    forall i | 0 <= i < |q|
      ensures WasAcked(q[i].sequence, receiver.remoteSequence, bits, max) <==> ReportedNumbers(got, ack)(pending[i])
    {
      CodecIsExact(receiver.receivedQueue, got, ack, pending[i], max);
    }
    SelectCarries(q, pending, Unacked(receiver.remoteSequence, bits, max), UnreportedNumbers(got, ack), max);
    SelectCarries(q, pending, Acked(receiver.remoteSequence, bits, max), ReportedNumbers(got, ack), max);
  }

  /** When the packets arrived in order, ending with the ack, the reported ones are all of those
      held among the ack and the 32 before it. */
  lemma InOrderReportsAllHeld(got: seq<nat>, ack: nat, n: nat)
    requires Increasing(got) && got != [] && got[|got| - 1] == ack
    ensures ReportedNumbers(got, ack)(n) <==> n in got && ack - 32 <= n <= ack
  {
    var stop := FirstAtLeast(got, ack);
    assert stop == |got| - 1;
    assert got == got[..stop] + [ack];
  }

  lemma PendingAfterAck(node: Node, p: Packet)
    requires Carries(node.link.pendingAckQueue, node.pending, node.link.max)
    ensures var link := node.link;
            && Carries(Keep(link.pendingAckQueue, Unacked(p.ackSequence, p.ackBits, link.max)),
                       Select(node.pending, LeavesOpen(p, link.max)), link.max)
            && |Keep(link.pendingAckQueue, Acked(p.ackSequence, p.ackBits, link.max))| ==
               |Select(node.pending, Confirms(p, link.max))|
  {
    var link := node.link;
    var q, max := link.pendingAckQueue, link.max;
    SelectCarries(q, node.pending, Unacked(p.ackSequence, p.ackBits, max), LeavesOpen(p, max), max);
    SelectCarries(q, node.pending, Acked(p.ackSequence, p.ackBits, max), Confirms(p, max), max);
    hide Keep, Select;
  }

  lemma AckAccounts(node: Node, p: Packet)
    requires Accounted(node)
    ensures Accounted(Acknowledged(node, p))
  {
    SelectSplits(node.pending, LeavesOpen(p, node.link.max), Confirms(p, node.link.max));
    hide AfterAck, Select, UpTo;
  }

  lemma CountsMore(n: nat, k: nat, numbers: seq<nat>, more: seq<nat>)
    requires Counts(n, numbers) && k == |more|
    ensures Counts(ToUInt32(n + k), numbers + more)
  {
  }

  lemma AckKeepsSendSide(node: Node, p: Packet)
    requires SendSide(node)
    ensures SendSide(Acknowledged(node, p))
  {
    hide SequenceOf, ToUInt32, Keep, Select, Counts, Carries, Accounted, InsertAll, SmoothedRtt, Sequences;
    PendingAfterAck(node, p);
    AckAccounts(node, p);
    var taken := Keep(node.link.pendingAckQueue, Acked(p.ackSequence, p.ackBits, node.link.max));
    CountsMore(node.link.ackedPackets, |taken|, node.acked, Select(node.pending, Confirms(p, node.link.max)));
  }

  lemma AckKeepsReceiveSide(node: Node, p: Packet)
    requires ReceiveSide(node)
    ensures ReceiveSide(Acknowledged(node, p))
  {
    hide SequenceOf, ToUInt32, Keep, Select, InsertAll, SmoothedRtt, Sequences;
  }

  // Time

  lemma TickAccounts(node: Node, deltaTime: real)
    requires Accounted(node)
    ensures Accounted(Ticked(node, deltaTime))
  {
    var after := Ticked(node, deltaTime);
    assert node.pending == node.pending[..|node.pending| - |after.pending|] + after.pending;
    hide AfterUpdate, UpTo;
  }

  lemma LastCarries(q: seq<PacketData>, numbers: seq<nat>, deltaTime: real, f: PacketData -> bool, max: nat)
    requires Carries(q, numbers, max)
    ensures var r := DropWhile(Aged(q, deltaTime), f);
            |r| <= |q| && Carries(r, Last(numbers, |r|), max)
  {
    AgedAt(q, deltaTime);
    DropWhileIsSuffix(Aged(q, deltaTime), f);
    hide SequenceOf, Aged, DropWhile;
  }

  lemma UpdatedReceivedQueue(s: LinkState, deltaTime: real)
    ensures var t := AfterUpdate(s, deltaTime);
            && t.receivedQueue == Pruned(Aged(s.receivedQueue, deltaTime), s.max)
            && t.remoteSequence == s.remoteSequence && t.localSequence == s.localSequence && t.max == s.max
  {
    hide Aged, Pruned, DropWhile, ToUInt32, OlderThan;
  }

  lemma TickKeepsSendSide(node: Node, deltaTime: real)
    requires SendSide(node)
    ensures SendSide(Ticked(node, deltaTime))
  {
    hide SequenceOf, ToUInt32, Counts, Accounted, AfterUpdate, Pruned, DropWhile, Aged, OlderThan;
    LastCarries(node.link.pendingAckQueue, node.pending, deltaTime, OlderThan(RTT_MAXIMUM + EPSILON), node.link.max);
    LinkRuns.UpdatedQueues(node.link, deltaTime);
    UpdatedReceivedQueue(node.link, deltaTime);
    TickAccounts(node, deltaTime);
    var after := Ticked(node, deltaTime);
    CountsMore(node.link.lostPackets, |node.link.pendingAckQueue| - |after.link.pendingAckQueue|,
               node.lost, node.pending[..|node.pending| - |after.pending|]);
  }

  lemma TickKeepsReceiveSide(node: Node, deltaTime: real)
    requires ReceiveSide(node)
    ensures ReceiveSide(Ticked(node, deltaTime))
  {
    var q := node.link.receivedQueue;
    if q != [] {
      var latest := Aged(q, deltaTime)[|q| - 1].sequence;
      LastCarries(q, node.got, deltaTime, TooOld(MinimumSequence(latest, node.link.max), node.link.max), node.link.max);
    }
    UpdatedReceivedQueue(node.link, deltaTime);
    hide SequenceOf, AfterUpdate, DropWhile, Aged, MinimumSequence, TooOld;
  }

  // Truth of acks

  /** What the packets a node sends say of that node: the number they stand for was sent, the
      ack was received unless nothing was, and every raised bit stands for a received packet. */
  ghost predicate Honest(p: Packet, sender: Node) {
    && p.sequence == SequenceOf(p.number, sender.link.max) && p.number < sender.next
    && p.ackSequence == SequenceOf(p.ack, sender.link.max)
    && (if p.informed then p.ack in sender.received else p.ack == 0)
    && forall k :: 0 <= k < 32 && p.ackBits[k] ==> p.ack - 1 - k >= 0 && p.ack - 1 - k in sender.received
  }

  lemma SentPacketIsHonest(node: Node, size: int)
    requires SendSide(node) && ReceiveSide(node)
    ensures Honest(PacketFrom(node), Sent(node, size))
  {
    hide SequenceOf, FieldOf, Accounted, Counts;
    var p := PacketFrom(node);
    var max := node.link.max;
    forall k | 0 <= k < 32 && p.ackBits[k]
      ensures p.ack - 1 - k >= 0 && p.ack - 1 - k in node.received
    {
      assert WithinHalfRange(node.got, node.latest, max);
      BitMeansArrivedBefore(node.link.receivedQueue, node.got, node.latest, max, k);
      var i :| 0 <= i < |node.got| && node.got[i] == p.ack - 1 - k;
    }
  }

  /** A node that only received more and sent more still stands by its packets. */
  lemma HonestForEver(p: Packet, before: Node, after: Node)
    requires Honest(p, before)
    requires after.link.max == before.link.max && before.next <= after.next && before.received <= after.received
    ensures Honest(p, after)
  {
    hide SequenceOf;
  }

  /** A packet a node takes for acked on an honest ack within half the sequence range was
      received by the peer, unless the peer had received nothing and the packet is number 0. */
  lemma ConfirmedWasReceived(p: Packet, peer: Node, n: nat)
    requires Honest(p, peer) && Distance(n, p.ack) <= peer.link.max / 2
    ensures p.informed && Confirms(p, peer.link.max)(n) ==> n in peer.received
    ensures !p.informed ==> (Confirms(p, peer.link.max)(n) <==> n == 0)
  {
    AckedByNumber(n, p.ack, p.ackBits, peer.link.max);
    hide SequenceOf, WasAcked;
    if p.ack - 32 <= n < p.ack && p.ackBits[p.ack - 1 - n] {
      assert p.ack - 1 - (p.ack - 1 - n) == n;
    }
  }

  ghost predicate AllReceived(numbers: seq<nat>, peer: Node) {
    forall i :: 0 <= i < |numbers| ==> numbers[i] in peer.received
  }

  /** Exactly when processing a packet makes a node count as acked something its peer never
      received: the peer had received nothing when it sent the packet, packet 0 is pending, and
      the peer has not received it since either. */
  lemma AckIsTruthfulUnlessUninformed(node: Node, peer: Node, p: Packet, size: int)
    requires peer.link.max == node.link.max && Honest(p, peer)
    requires WithinHalfRange(node.pending, p.ack, node.link.max) && AllReceived(node.acked, peer)
    ensures AllReceived(Delivered(node, p, size).acked, peer) <==>
            !(!p.informed && 0 in node.pending && 0 !in peer.received)
  {
    hide Honest, Confirms, Holds, IsMoreRecent, ToUInt32, AfterAck;
    var f := Confirms(p, node.link.max);
    var confirmed := Select(node.pending, f);
    forall i | 0 <= i < |node.pending|
      ensures p.informed && f(node.pending[i]) ==> node.pending[i] in peer.received
      ensures !p.informed ==> (f(node.pending[i]) <==> node.pending[i] == 0)
    {
      ConfirmedWasReceived(p, peer, node.pending[i]);
    }
    forall n: nat ensures n in confirmed <==> n in node.pending && f(n) {
      SelectHolds(node.pending, f, n);
    }
    hide Select;
    assert Delivered(node, p, size).acked == node.acked + confirmed;
    if !p.informed && 0 in node.pending && 0 !in peer.received {
      assert 0 in confirmed;
      var i :| 0 <= i < |confirmed| && confirmed[i] == 0;
      assert (node.acked + confirmed)[|node.acked| + i] == 0;
    } else {
      forall i | 0 <= i < |confirmed| ensures confirmed[i] in peer.received {
        assert confirmed[i] in confirmed;
      }
    }
  }

  // Runs

  datatype World = World(a: Node, b: Node, toA: seq<Packet>, toB: seq<Packet>)

  datatype Event =
    | ASends(size: int)
    | BSends(size: int)
    | ToA(index: nat, size: int)
    | ToB(index: nat, size: int)
    | ATicks(deltaTime: real)
    | BTicks(deltaTime: real)

  function Start(max: MaxSequence): World {
    World(FreshNode(max), FreshNode(max), [], [])
  }

  /** What the network and the traffic may do: deliver any packet that was ever sent, again and
      again, as long as it is still within half the sequence range. */
  ghost predicate Allowed(w: World, e: Event) {
    match e
    case ToA(index, _) => index < |w.toA| && InWindow(w.a, w.toA[index])
    case ToB(index, _) => index < |w.toB| && InWindow(w.b, w.toB[index])
    case _ => true
  }

  ghost function Next(w: World, e: Event): World
    requires Allowed(w, e)
  {
    match e
    case ASends(size) => w.(a := Sent(w.a, size), toB := w.toB + [PacketFrom(w.a)])
    case BSends(size) => w.(b := Sent(w.b, size), toA := w.toA + [PacketFrom(w.b)])
    case ToA(index, size) => w.(a := Delivered(w.a, w.toA[index], size))
    case ToB(index, size) => w.(b := Delivered(w.b, w.toB[index], size))
    case ATicks(deltaTime) => w.(a := Ticked(w.a, deltaTime))
    case BTicks(deltaTime) => w.(b := Ticked(w.b, deltaTime))
  }

  /** `worlds` is a run: it starts fresh and goes on by allowed events. */
  ghost predicate IsRun(worlds: seq<World>, events: seq<Event>, max: MaxSequence) {
    && |worlds| == |events| + 1
    && worlds[0] == Start(max)
    && forall i :: 0 <= i < |events| ==> Allowed(worlds[i], events[i]) && worlds[i + 1] == Next(worlds[i], events[i])
  }

  ghost predicate Truthful(node: Node, peer: Node) {
    forall i :: 0 <= i < |node.acked| ==> node.acked[i] in peer.received || (node.misled && node.acked[i] == 0)
  }

  /** What holds of a node, its peer and the packets on their way to the node. */
  ghost predicate Sound(node: Node, peer: Node, toNode: seq<Packet>) {
    && node.link.max == peer.link.max
    && SendSide(node) && ReceiveSide(node)
    && (forall n :: n in node.received ==> n < peer.next)
    && (forall i :: 0 <= i < |toNode| ==> Honest(toNode[i], peer))
    && Truthful(node, peer)
  }

  lemma TruthfulAfterDelivery(node: Node, peer: Node, p: Packet, size: int)
    requires peer.link.max == node.link.max && Honest(p, peer)
    requires WithinHalfRange(node.pending, p.ack, node.link.max) && Truthful(node, peer)
    ensures Truthful(Delivered(node, p, size), peer)
  {
    hide Honest, Confirms, Holds, IsMoreRecent, ToUInt32, AfterAck;
    var f := Confirms(p, node.link.max);
    var confirmed := Select(node.pending, f);
    forall i | 0 <= i < |confirmed| ensures confirmed[i] in peer.received || (!p.informed && confirmed[i] == 0) {
      SelectHolds(node.pending, f, confirmed[i]);
      ConfirmedWasReceived(p, peer, confirmed[i]);
    }
    hide Select;
    assert Delivered(node, p, size).acked == node.acked + confirmed;
  }

  lemma DeliveryKeepsSound(node: Node, peer: Node, toNode: seq<Packet>, toPeer: seq<Packet>, p: Packet, size: int)
    requires Sound(node, peer, toNode) && Sound(peer, node, toPeer)
    requires p in toNode && InWindow(node, p)
    ensures Sound(Delivered(node, p, size), peer, toNode)
    ensures Sound(peer, Delivered(node, p, size), toPeer)
  {
    hide SendSide, ReceiveSide, Honest, Truthful, AfterReceive, AfterAck, Holds, SequenceOf, Select;
    assert Honest(p, peer);
    PacketOfPeer(p, peer);
    ArrivalKeepsReceiveSide(node, p, size);
    ArrivalKeepsSendSide(node, p, size);
    AckKeepsReceiveSide(Arrived(node, p, size), p);
    AckKeepsSendSide(Arrived(node, p, size), p);
    TruthfulAfterDelivery(node, peer, p, size);
    var after := Delivered(node, p, size);
    DeliveredFields(node, p, size);
    hide Delivered;
    forall i | 0 <= i < |toPeer| ensures Honest(toPeer[i], after) {
      HonestForEver(toPeer[i], node, after);
    }
    TruthfulForEver(peer, node, after);
  }

  lemma DeliveredFields(node: Node, p: Packet, size: int)
    ensures var after := Delivered(node, p, size);
            && after.link.max == node.link.max && after.next == node.next
            && after.received == node.received + {p.number}
  {
    hide Holds, Select, Keep, InsertAll, SmoothedRtt, Sequences, ToUInt32;
  }

  lemma PacketOfPeer(p: Packet, peer: Node)
    requires Honest(p, peer)
    ensures p.sequence == SequenceOf(p.number, peer.link.max) && p.number < peer.next
  {
    hide SequenceOf;
  }

  lemma TruthfulForEver(node: Node, before: Node, after: Node)
    requires Truthful(node, before) && before.received <= after.received
    ensures Truthful(node, after)
  {
  }

  lemma SendKeepsSound(node: Node, peer: Node, toNode: seq<Packet>, toPeer: seq<Packet>, size: int)
    requires Sound(node, peer, toNode) && Sound(peer, node, toPeer)
    ensures Sound(Sent(node, size), peer, toNode)
    ensures Sound(peer, Sent(node, size), toPeer + [PacketFrom(node)])
  {
    hide SendSide, ReceiveSide, Honest, PacketFrom;
    SendKeeps(node, size);
    SentPacketIsHonest(node, size);
    var after := Sent(node, size);
    forall i | 0 <= i < |toPeer| ensures Honest(toPeer[i], after) {
      HonestForEver(toPeer[i], node, after);
    }
  }

  lemma TickKeepsSound(node: Node, peer: Node, toNode: seq<Packet>, toPeer: seq<Packet>, deltaTime: real)
    requires Sound(node, peer, toNode) && Sound(peer, node, toPeer)
    ensures Sound(Ticked(node, deltaTime), peer, toNode)
    ensures Sound(peer, Ticked(node, deltaTime), toPeer)
  {
    hide SendSide, ReceiveSide, Honest, AfterUpdate;
    TickKeepsSendSide(node, deltaTime);
    TickKeepsReceiveSide(node, deltaTime);
    UpdatedReceivedQueue(node.link, deltaTime);
    var after := Ticked(node, deltaTime);
    forall i | 0 <= i < |toPeer| ensures Honest(toPeer[i], after) {
      HonestForEver(toPeer[i], node, after);
    }
  }

  lemma StepKeepsSound(w: World, e: Event)
    requires Allowed(w, e)
    requires Sound(w.a, w.b, w.toA) && Sound(w.b, w.a, w.toB)
    ensures var v := Next(w, e);
            Sound(v.a, v.b, v.toA) && Sound(v.b, v.a, v.toB)
  {
    hide Sound, Sent, Delivered, Ticked, PacketFrom, InWindow;
    match e
    case ASends(size) => SendKeepsSound(w.a, w.b, w.toA, w.toB, size);
    case BSends(size) => SendKeepsSound(w.b, w.a, w.toB, w.toA, size);
    case ToA(index, size) => DeliveryKeepsSound(w.a, w.b, w.toA, w.toB, w.toA[index], size);
    case ToB(index, size) => DeliveryKeepsSound(w.b, w.a, w.toB, w.toA, w.toB[index], size);
    case ATicks(deltaTime) => TickKeepsSound(w.a, w.b, w.toA, w.toB, deltaTime);
    case BTicks(deltaTime) => TickKeepsSound(w.b, w.a, w.toB, w.toA, deltaTime);
  }

  lemma StartIsSound(max: MaxSequence)
    ensures Sound(FreshNode(max), FreshNode(max), [])
  {
  }

  lemma {:induction false} RunsAreSound(worlds: seq<World>, events: seq<Event>, max: MaxSequence, i: nat)
    requires IsRun(worlds, events, max) && i < |worlds|
    ensures Sound(worlds[i].a, worlds[i].b, worlds[i].toA) && Sound(worlds[i].b, worlds[i].a, worlds[i].toB)
  {
    hide Sound, Next, Allowed;
    if i == 0 {
      StartIsSound(max);
    } else {
      RunsAreSound(worlds, events, max, i - 1);
      StepKeepsSound(worlds[i - 1], events[i - 1]);
    }
  }

  ghost predicate CountsTruly(node: Node, peer: Node, n: nat) {
    && (n in node.acked ==> n in peer.received || (node.misled && n == 0))
    && node.link.ackedPackets == ToUInt32(|node.acked|)
    && multiset(node.acked)[n] <= 1
  }

  /** Acks are truthful over whole runs. In every world of every run within half the sequence
      range, whatever was lost, repeated, reordered or wrapped around: every packet a node
      counts as acked was received by its peer, unless the node processed the ack of a peer that
      had received nothing, which names packet 0. No packet is counted twice, and the counter
      is their number. */
  lemma AcksAreTruthful(worlds: seq<World>, events: seq<Event>, max: MaxSequence, i: nat, n: nat)
    requires IsRun(worlds, events, max) && i < |worlds|
    ensures CountsTruly(worlds[i].a, worlds[i].b, n)
    ensures CountsTruly(worlds[i].b, worlds[i].a, n)
  {
    RunsAreSound(worlds, events, max, i);
    hide IsRun, SequenceOf;
    AckedOnce(worlds[i].a, n);
    AckedOnce(worlds[i].b, n);
  }

  lemma AckedOnce(node: Node, n: nat)
    requires Accounted(node)
    ensures multiset(node.acked)[n] <= 1
  {
    UpToHasEachOnce(node.next, n);
    assert (multiset(node.pending) + multiset(node.acked) + multiset(node.lost))[n] <= 1;
  }

  ghost predicate HasOneFate(node: Node, n: nat) {
    multiset(node.pending)[n] + multiset(node.acked)[n] + multiset(node.lost)[n] == (if n < node.next then 1 else 0)
  }

  lemma AccountedForOnce(node: Node, n: nat)
    requires Accounted(node)
    ensures HasOneFate(node, n)
  {
    UpToHasEachOnce(node.next, n);
    assert (multiset(node.pending) + multiset(node.acked) + multiset(node.lost))[n] == UpTo(node.next)[n];
  }

  /** Each packet either node ever sent has exactly one fate: it is pending, acked or lost. */
  lemma EveryPacketHasOneFate(worlds: seq<World>, events: seq<Event>, max: MaxSequence, i: nat, n: nat)
    requires IsRun(worlds, events, max) && i < |worlds|
    ensures HasOneFate(worlds[i].a, n) && HasOneFate(worlds[i].b, n)
  {
    RunsAreSound(worlds, events, max, i);
    hide IsRun, SequenceOf;
    AccountedForOnce(worlds[i].a, n);
    AccountedForOnce(worlds[i].b, n);
  }

  /** Each node sends its first packet before anything arrived; nothing is known of either. */
  lemma FirstPackets(max: MaxSequence)
    ensures var w := Next(Next(Start(max), ASends(1)), BSends(1));
            && w.a.pending == [0] && w.a.acked == [] && w.a.link.max == max && w.b.received == {}
            && |w.toA| == 1 && w.toA[0].ackSequence == 0 && w.toA[0].ack == 0
  {
    hide FieldOf, SequenceOf;
  }

  lemma SelectOfOne(f: nat -> bool)
    requires f(0)
    ensures Select([0], f) == [0]
  {
    assert [0][1..] == [];
  }

  /** The exception is real: A's first packet is lost, B sends one of its own before anything
      reached it, and A counts its packet as acked. */
  lemma AckOfNothing(max: MaxSequence) returns (worlds: seq<World>, events: seq<Event>)
    ensures IsRun(worlds, events, max)
    ensures var w := worlds[|worlds| - 1];
            w.a.acked == [0] && w.b.received == {}
  {
    var w0 := Start(max);
    events := [ASends(1), BSends(1), ToA(0, 1)];
    var w1 := Next(w0, events[0]);
    var w2 := Next(w1, events[1]);
    FirstPackets(max);
    SelectOfOne(Confirms(w2.toA[0], max));
    hide Select, Confirms, AfterAck, AfterReceive, FieldOf, AllPlaced, PacketFrom, Sent, Start;
    var w3 := Next(w2, events[2]);
    worlds := [w0, w1, w2, w3];
    assert w3.a.acked == [0] && w3.b == w2.b;
    hide Next;
  }
}
