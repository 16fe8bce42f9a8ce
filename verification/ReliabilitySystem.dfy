/** The reliability system of one endpoint: its state as a value, the meaning of each operation
    on that value, and the class whose methods carry the operations out in place. */
module Reliability {
  import opened SequenceNumbers
  import opened PacketQueues
  import opened AckFields

  const RTT_MAXIMUM: real := 1.0
  const EPSILON: real := 0.001
  /** How far behind the packet that arrived last a received packet is kept. */
  const RECEIVE_WINDOW: nat := 34

  datatype LinkState = LinkState(
    max: MaxSequence,
    localSequence: nat,
    remoteSequence: nat,
    sentPackets: nat,
    receivedPackets: nat,
    lostPackets: nat,
    ackedPackets: nat,
    rtt: real,
    acked: seq<nat>,
    sentQueue: seq<PacketData>,
    pendingAckQueue: seq<PacketData>,
    receivedQueue: seq<PacketData>,
    ackedQueue: seq<PacketData>)

  ghost predicate WellFormed(s: LinkState) {
    && s.localSequence <= s.max && s.remoteSequence <= MAX_U32
    && s.sentPackets < TWO_32 && s.receivedPackets < TWO_32 && s.lostPackets < TWO_32 && s.ackedPackets < TWO_32
    && InRange(s.sentQueue, s.max) && InRange(s.pendingAckQueue, s.max)
    && InRange(s.receivedQueue, MAX_U32) && InRange(s.ackedQueue, s.max)
  }

  function Fresh(max: MaxSequence): LinkState {
    LinkState(max, 0, 0, 0, 0, 0, 0, 0.0, [], [], [], [], [])
  }

  function AfterSend(s: LinkState, size: int): LinkState {
    var data := PacketData(s.localSequence, 0.0, size);
    s.(sentQueue := s.sentQueue + [data],
       pendingAckQueue := s.pendingAckQueue + [data],
       sentPackets := ToUInt32(s.sentPackets + 1),
       localSequence := if s.localSequence == s.max then 0 else s.localSequence + 1)
  }

  function AfterReceive(s: LinkState, sequence: nat, size: int): LinkState {
    var counted := s.(receivedPackets := ToUInt32(s.receivedPackets + 1));
    if Holds(s.receivedQueue, sequence) then counted
    else
      var newer := IsMoreRecent(sequence, s.remoteSequence, s.max);
      counted.(receivedQueue := s.receivedQueue + [PacketData(sequence, 0.0, size)],
               remoteSequence := if newer then sequence else s.remoteSequence)
  }

  function Acked(ack: nat, ackBits: AckField, max: nat): PacketData -> bool {
    (p: PacketData) => WasAcked(p.sequence, ack, ackBits, max)
  }

  function Unacked(ack: nat, ackBits: AckField, max: nat): PacketData -> bool {
    (p: PacketData) => !WasAcked(p.sequence, ack, ackBits, max)
  }

  function NextRtt(rtt: real, p: PacketData): real {
    rtt + (p.time - rtt) * 0.1
  }

  /** The round trip estimate after the packets `q` were acknowledged one after the other. */
  function SmoothedRtt(rtt: real, q: seq<PacketData>): real
    decreases |q|
  {
    if q == [] then rtt else SmoothedRtt(NextRtt(rtt, q[0]), q[1..])
  }

  function InsertAll(queue: seq<PacketData>, q: seq<PacketData>, max: nat): seq<PacketData>
    decreases |q|
  {
    if q == [] then queue else InsertAll(SortedInsert(queue, q[0], max), q[1..], max)
  }

  function AfterAck(s: LinkState, ack: nat, ackBits: AckField): LinkState {
    var taken := Keep(s.pendingAckQueue, Acked(ack, ackBits, s.max));
    s.(pendingAckQueue := Keep(s.pendingAckQueue, Unacked(ack, ackBits, s.max)),
       ackedQueue := InsertAll(s.ackedQueue, taken, s.max),
       acked := s.acked + Sequences(taken),
       ackedPackets := ToUInt32(s.ackedPackets + |taken|),
       rtt := SmoothedRtt(s.rtt, taken))
  }

  function AfterAgeing(s: LinkState, deltaTime: real): LinkState {
    s.(sentQueue := Aged(s.sentQueue, deltaTime),
       receivedQueue := Aged(s.receivedQueue, deltaTime),
       pendingAckQueue := Aged(s.pendingAckQueue, deltaTime),
       ackedQueue := Aged(s.ackedQueue, deltaTime))
  }

  /** The sequence a received packet must be more recent than to be kept, once `latest` is the
      one that arrived last. Without the wrap it is 34 back; with it, 35 back. */
  function MinimumSequence(latest: nat, max: nat): nat
  {
    if latest >= RECEIVE_WINDOW then latest - RECEIVE_WINDOW
    else ToUInt32(max - (RECEIVE_WINDOW - latest))
  }

  function TooOld(minimum: nat, max: nat): PacketData -> bool {
    (p: PacketData) => !IsMoreRecent(p.sequence, minimum, max)
  }

  function Pruned(q: seq<PacketData>, max: nat): seq<PacketData> {
    if q == [] then []
    else DropWhile(q, TooOld(MinimumSequence(q[|q| - 1].sequence, max), max))
  }

  function AfterPruning(s: LinkState): LinkState {
    var pending := DropWhile(s.pendingAckQueue, OlderThan(RTT_MAXIMUM + EPSILON));
    s.(sentQueue := DropWhile(s.sentQueue, OlderThan(RTT_MAXIMUM + EPSILON)),
       receivedQueue := Pruned(s.receivedQueue, s.max),
       ackedQueue := DropWhile(s.ackedQueue, OlderThan(RTT_MAXIMUM * 2.0 - EPSILON)),
       pendingAckQueue := pending,
       lostPackets := ToUInt32(s.lostPackets + |s.pendingAckQueue| - |pending|))
  }

  function AfterUpdate(s: LinkState, deltaTime: real): LinkState {
    AfterPruning(AfterAgeing(s.(acked := []), deltaTime))
  }

  // What the operations keep

  lemma {:induction false} InsertAllInRange(queue: seq<PacketData>, q: seq<PacketData>, max: nat)
    requires InRange(queue, max) && InRange(q, max)
    ensures InRange(InsertAll(queue, q, max), max)
    decreases |q|
  {
    if q != [] {
      InsertAllInRange(SortedInsert(queue, q[0], max), q[1..], max);
    }
  }

  lemma KeepInRange(q: seq<PacketData>, f: PacketData -> bool, max: nat)
    requires InRange(q, max)
    ensures InRange(Keep(q, f), max)
  {
    var r := Keep(q, f);
    forall i | 0 <= i < |r| ensures r[i].sequence <= max {
      KeepHolds(q, f, r[i]);
    }
  }

  lemma AckKeepsWellFormed(s: LinkState, ack: nat, ackBits: AckField)
    requires WellFormed(s)
    ensures WellFormed(AfterAck(s, ack, ackBits))
  {
    KeepInRange(s.pendingAckQueue, Acked(ack, ackBits, s.max), s.max);
    KeepInRange(s.pendingAckQueue, Unacked(ack, ackBits, s.max), s.max);
    InsertAllInRange(s.ackedQueue, Keep(s.pendingAckQueue, Acked(ack, ackBits, s.max)), s.max);
  }

  lemma AgeingKeepsWellFormed(s: LinkState, deltaTime: real)
    requires WellFormed(s)
    ensures WellFormed(AfterAgeing(s, deltaTime))
  {
    AgedAt(s.sentQueue, deltaTime);
    AgedAt(s.receivedQueue, deltaTime);
    AgedAt(s.pendingAckQueue, deltaTime);
    AgedAt(s.ackedQueue, deltaTime);
    hide Aged;
  }

  lemma SuffixInRange(q: seq<PacketData>, k: nat, max: nat)
    requires InRange(q, max) && k <= |q|
    ensures InRange(q[k..], max)
  {
  }

  lemma DroppedInRange(q: seq<PacketData>, f: PacketData -> bool, max: nat)
    requires InRange(q, max)
    ensures InRange(DropWhile(q, f), max)
  {
    DropWhileIsSuffix(q, f);
    SuffixInRange(q, |q| - |DropWhile(q, f)|, max);
    hide InRange;
  }

  lemma PruningKeepsWellFormed(s: LinkState)
    requires WellFormed(s)
    ensures WellFormed(AfterPruning(s))
  {
    var stale := OlderThan(RTT_MAXIMUM + EPSILON);
    DroppedInRange(s.sentQueue, stale, s.max);
    DroppedInRange(s.pendingAckQueue, stale, s.max);
    DroppedInRange(s.ackedQueue, OlderThan(RTT_MAXIMUM * 2.0 - EPSILON), s.max);
    if s.receivedQueue != [] {
      var latest := s.receivedQueue[|s.receivedQueue| - 1].sequence;
      DroppedInRange(s.receivedQueue, TooOld(MinimumSequence(latest, s.max), s.max), MAX_U32);
    }
    hide InRange, MinimumSequence, DropWhile, ToUInt32;
  }

  class ReliabilitySystem {
    const maxSequence: MaxSequence
    var localSequence: nat
    var remoteSequence: nat
    var sentPackets: nat
    var receivedPackets: nat
    var lostPackets: nat
    var ackedPackets: nat
    var rtt: real
    var acked: seq<nat>
    const sentQueue: PacketQueue
    const pendingAckQueue: PacketQueue
    const receivedQueue: PacketQueue
    const ackedQueue: PacketQueue

    ghost function State(): LinkState
      reads this, sentQueue, pendingAckQueue, receivedQueue, ackedQueue
    {
      LinkState(maxSequence, localSequence, remoteSequence, sentPackets, receivedPackets, lostPackets, ackedPackets,
                rtt, acked, sentQueue.items, pendingAckQueue.items, receivedQueue.items, ackedQueue.items)
    }

    ghost predicate Valid()
      reads this, sentQueue, pendingAckQueue, receivedQueue, ackedQueue
    {
      && sentQueue != pendingAckQueue && sentQueue != receivedQueue && sentQueue != ackedQueue
      && pendingAckQueue != receivedQueue && pendingAckQueue != ackedQueue && receivedQueue != ackedQueue
      && WellFormed(State())
    }

    constructor (max: MaxSequence)
      ensures Valid() && State() == Fresh(max)
      ensures fresh(sentQueue) && fresh(pendingAckQueue) && fresh(receivedQueue) && fresh(ackedQueue)
    {
      maxSequence := max;
      localSequence, remoteSequence := 0, 0;
      sentPackets, receivedPackets, lostPackets, ackedPackets := 0, 0, 0, 0;
      rtt, acked := 0.0, [];
      sentQueue := new PacketQueue();
      pendingAckQueue := new PacketQueue();
      receivedQueue := new PacketQueue();
      ackedQueue := new PacketQueue();
    }

    /** Starts over, except that the list of freshly acked packets is left as it is. */
    method Reset()
      requires Valid()
      modifies this, sentQueue, pendingAckQueue, receivedQueue, ackedQueue
      ensures Valid() && State() == Fresh(maxSequence).(acked := old(acked))
    {
      localSequence, remoteSequence := 0, 0;
      sentQueue.items := [];
      receivedQueue.items := [];
      pendingAckQueue.items := [];
      ackedQueue.items := [];
      sentPackets, receivedPackets, lostPackets, ackedPackets := 0, 0, 0, 0;
      rtt := 0.0;
    }

    method PacketSent(size: int)
      requires Valid()
      modifies this, sentQueue, pendingAckQueue
      ensures Valid() && State() == AfterSend(old(State()), size)
    {
      var data := PacketData(localSequence, 0.0, size);
      sentQueue.items := sentQueue.items + [data];
      pendingAckQueue.items := pendingAckQueue.items + [data];
      sentPackets := ToUInt32(sentPackets + 1);
      localSequence := ToUInt32(localSequence + 1);
      if localSequence > maxSequence {
        localSequence := 0;
      }
    }

    method PacketReceived(sequence: nat, size: int)
      requires Valid() && sequence <= MAX_U32
      modifies this, receivedQueue
      ensures Valid() && State() == AfterReceive(old(State()), sequence, size)
    {
      receivedPackets := ToUInt32(receivedPackets + 1);
      var known := receivedQueue.Exists(sequence);
      if known {
        return;
      }
      var data := PacketData(sequence, 0.0, size);
      receivedQueue.items := receivedQueue.items + [data];
      if IsMoreRecent(sequence, remoteSequence, maxSequence) {
        remoteSequence := sequence;
      }
    }

    method GenerateAckBits() returns (ackBits: AckField)
      requires Valid() && ReportIsDefined(State().receivedQueue, State().remoteSequence, State().max)
      ensures ackBits == FieldOf(State().receivedQueue, State().remoteSequence, State().max)
    {
      ackBits := AckFields.GenerateAckBits(remoteSequence, receivedQueue, maxSequence);
    }

    method ProcessAck(ack: nat, ackBits: AckField)
      requires Valid() && ack <= MAX_U32
      modifies this, pendingAckQueue, ackedQueue
      ensures Valid() && State() == AfterAck(old(State()), ack, ackBits)
    {
      hide PendingDefined, InRange, Keep, InsertAll, SmoothedRtt, Sequences, ToUInt32, Acked, Unacked;
      AckKeepsWellFormed(State(), ack, ackBits);
      PendingIsDefined(pendingAckQueue.items, ack, maxSequence);
      acked, ackedPackets, rtt :=
        ProcessAckOn(ack, ackBits, pendingAckQueue, ackedQueue, acked, ackedPackets, rtt, maxSequence);
    }

    method Update(deltaTime: real)
      requires Valid()
      modifies this, sentQueue, pendingAckQueue, receivedQueue, ackedQueue
      ensures Valid() && State() == AfterUpdate(old(State()), deltaTime)
    {
      acked := [];
      AdvanceQueueTime(deltaTime);
      UpdateQueues();
    }

    method AdvanceQueueTime(deltaTime: real)
      requires Valid()
      modifies sentQueue, pendingAckQueue, receivedQueue, ackedQueue
      ensures Valid() && State() == AfterAgeing(old(State()), deltaTime)
    {
      AgeingKeepsWellFormed(State(), deltaTime);
      hide InRange;
      AdvanceTime(sentQueue, deltaTime);
      AdvanceTime(receivedQueue, deltaTime);
      AdvanceTime(pendingAckQueue, deltaTime);
      AdvanceTime(ackedQueue, deltaTime);
    }

    method UpdateQueues()
      requires Valid()
      modifies this, sentQueue, pendingAckQueue, receivedQueue, ackedQueue
      ensures Valid() && State() == AfterPruning(old(State()))
    {
      PruningKeepsWellFormed(State());
      hide InRange, MinimumSequence, DropWhile, ToUInt32;
      var _ := PopWhile(sentQueue, OlderThan(RTT_MAXIMUM + EPSILON));
      if receivedQueue.items != [] {
        var latestSequence := receivedQueue.items[|receivedQueue.items| - 1].sequence;
        var minimumSequence := MinimumSequence(latestSequence, maxSequence);
        var _ := PopWhile(receivedQueue, TooOld(minimumSequence, maxSequence));
      }
      var _ := PopWhile(ackedQueue, OlderThan(RTT_MAXIMUM * 2.0 - EPSILON));
      var lost := PopWhile(pendingAckQueue, OlderThan(RTT_MAXIMUM + EPSILON));
      lostPackets := ToUInt32(lostPackets + lost);
    }
  }

  /** The loop each queue is pruned with. */
  method PopWhile(queue: PacketQueue, f: PacketData -> bool) returns (popped: nat)
    modifies queue
    ensures queue.items == DropWhile(old(queue.items), f)
    ensures popped == |old(queue.items)| - |queue.items|
  {
    popped := 0;
    while queue.items != [] && f(queue.items[0])
      invariant popped == |old(queue.items)| - |queue.items|
      invariant DropWhile(queue.items, f) == DropWhile(old(queue.items), f)
      decreases |queue.items|
    {
      queue.items := queue.items[1..];
      popped := popped + 1;
    }
  }

  /** The loop each queue is aged with. */
  method AdvanceTime(queue: PacketQueue, deltaTime: real)
    modifies queue
    ensures queue.items == Aged(old(queue.items), deltaTime)
  {
    var n := |queue.items|;
    AgedAt(queue.items, deltaTime);
    hide Aged;
    for i := 0 to n
      invariant |queue.items| == n
      invariant forall k :: 0 <= k < i ==>
        queue.items[k] == old(queue.items)[k].(time := old(queue.items)[k].time + deltaTime)
      invariant forall k :: i <= k < n ==> queue.items[k] == old(queue.items)[k]
    {
      var p := queue.items[i];
      queue.items := queue.items[i := p.(time := p.time + deltaTime)];
    }
  }

  lemma CountOneMore(n: nat, k: nat)
    ensures ToUInt32(ToUInt32(n + 1) + k) == ToUInt32(n + 1 + k)
  {
  }

  /** Acknowledging the packets `[p] + q` is acknowledging p and then q. */
  lemma AckedFirst(p: PacketData, q: seq<PacketData>, acked: seq<nat>, queue: seq<PacketData>, rtt: real, max: nat)
    ensures acked + Sequences([p] + q) == acked + [p.sequence] + Sequences(q)
    ensures InsertAll(queue, [p] + q, max) == InsertAll(SortedInsert(queue, p, max), q, max)
    ensures SmoothedRtt(rtt, [p] + q) == SmoothedRtt(NextRtt(rtt, p), q)
  {
    assert ([p] + q)[1..] == q;
    hide SortedInsert;
  }

  lemma KeepFirst(q: seq<PacketData>, f: PacketData -> bool)
    requires q != []
    ensures Keep(q, f) == if f(q[0]) then [q[0]] + Keep(q[1..], f) else Keep(q[1..], f)
  {
  }

  lemma Erased<T>(s: seq<T>, i: nat)
    requires i < |s|
    ensures var r := s[..i] + s[i + 1..];
            |r| == |s| - 1 && r[..i] == s[..i] && r[i..] == s[i..][1..]
  {
  }

  lemma Passed<T>(s: seq<T>, i: nat)
    requires i < |s|
    ensures s[i..] != [] && s[i..][0] == s[i] && s[i..][1..] == s[i + 1..] && s[..i] + [s[i]] == s[..i + 1]
  {
  }

  /** No shift in reading the field is undefined. */
  ghost predicate PendingDefined(q: seq<PacketData>, ack: nat, max: nat) {
    forall i :: 0 <= i < |q| ==> ShiftIsDefined(q[i].sequence, ack, max)
  }

  lemma PendingIsDefined(q: seq<PacketData>, ack: nat, max: MaxSequence)
    requires InRange(q, max) && ack <= MAX_U32
    ensures PendingDefined(q, ack, max)
  {
    forall i | 0 <= i < |q| ensures ShiftIsDefined(q[i].sequence, ack, max) {
      ShiftIsUndefinedExactly(q[i].sequence, ack, max);
    }
  }

  lemma ErasedIsDefined(q: seq<PacketData>, i: nat, ack: nat, max: nat)
    requires i < |q| && PendingDefined(q, ack, max)
    ensures PendingDefined(q[..i] + q[i + 1..], ack, max) && ShiftIsDefined(q[i].sequence, ack, max)
  {
    hide ShiftIsDefined;
  }

  /** What the loop over the pending packets adds to. */
  datatype Totals = Totals(ackedQueue: seq<PacketData>, acked: seq<nat>, ackedPackets: nat, rtt: real)

  /** The pending packets are dealt with up to `rest`, and `kept` are those that were left. */
  ghost predicate Halfway(start: Totals, all: seq<PacketData>, now: Totals, kept: seq<PacketData>,
                          rest: seq<PacketData>,
                          ack: nat, ackBits: AckField, max: nat) {
    var f, g := Acked(ack, ackBits, max), Unacked(ack, ackBits, max);
    && Keep(all, g) == kept + Keep(rest, g)
    && now.acked + Sequences(Keep(rest, f)) == start.acked + Sequences(Keep(all, f))
    && InsertAll(now.ackedQueue, Keep(rest, f), max) == InsertAll(start.ackedQueue, Keep(all, f), max)
    && SmoothedRtt(now.rtt, Keep(rest, f)) == SmoothedRtt(start.rtt, Keep(all, f))
    && now.ackedPackets < TWO_32
    && ToUInt32(now.ackedPackets + |Keep(rest, f)|) == ToUInt32(start.ackedPackets + |Keep(all, f)|)
  }

  lemma NothingYet(start: Totals, all: seq<PacketData>, ack: nat, ackBits: AckField, max: nat)
    requires start.ackedPackets < TWO_32
    ensures Halfway(start, all, start, [], all, ack, ackBits, max)
  {
    hide Keep, Sequences, InsertAll, SmoothedRtt, ToUInt32;
    var g := Unacked(ack, ackBits, max);
    assert [] + Keep(all, g) == Keep(all, g);
  }

  lemma TakesOne(start: Totals, all: seq<PacketData>, now: Totals, kept: seq<PacketData>, rest: seq<PacketData>,
                 ack: nat, ackBits: AckField, max: nat)
    requires Halfway(start, all, now, kept, rest, ack, ackBits, max)
    requires rest != [] && WasAcked(rest[0].sequence, ack, ackBits, max)
    ensures var p := rest[0];
            Halfway(start, all, Totals(SortedInsert(now.ackedQueue, p, max), now.acked + [p.sequence],
                                       ToUInt32(now.ackedPackets + 1), NextRtt(now.rtt, p)),
                    kept, rest[1..], ack, ackBits, max)
  {
    hide SortedInsert, NextRtt, Keep, Sequences, InsertAll, SmoothedRtt, ToUInt32, WasAcked;
    KeepFirst(rest, Acked(ack, ackBits, max));
    KeepFirst(rest, Unacked(ack, ackBits, max));
    var later := Keep(rest[1..], Acked(ack, ackBits, max));
    AckedFirst(rest[0], later, now.acked, now.ackedQueue, now.rtt, max);
    CountOneMore(now.ackedPackets, |later|);
  }

  lemma LeavesOne(start: Totals, all: seq<PacketData>, now: Totals, kept: seq<PacketData>, rest: seq<PacketData>,
                  ack: nat, ackBits: AckField, max: nat)
    requires Halfway(start, all, now, kept, rest, ack, ackBits, max)
    requires rest != [] && !WasAcked(rest[0].sequence, ack, ackBits, max)
    ensures Halfway(start, all, now, kept + [rest[0]], rest[1..], ack, ackBits, max)
  {
    hide SortedInsert, Keep, Sequences, InsertAll, SmoothedRtt, ToUInt32, WasAcked;
    KeepFirst(rest, Acked(ack, ackBits, max));
    KeepFirst(rest, Unacked(ack, ackBits, max));
    var later := Keep(rest[1..], Unacked(ack, ackBits, max));
    assert kept + ([rest[0]] + later) == kept + [rest[0]] + later;
  }

  lemma AllDealtWith(start: Totals, all: seq<PacketData>, now: Totals, kept: seq<PacketData>,
                     ack: nat, ackBits: AckField, max: nat)
    requires Halfway(start, all, now, kept, [], ack, ackBits, max)
    ensures var taken := Keep(all, Acked(ack, ackBits, max));
            && kept == Keep(all, Unacked(ack, ackBits, max))
            && now == Totals(InsertAll(start.ackedQueue, taken, max), start.acked + Sequences(taken),
                             ToUInt32(start.ackedPackets + |taken|), SmoothedRtt(start.rtt, taken))
  {
    FitsUInt32(now.ackedPackets);
    hide ToUInt32;
    var f, g := Acked(ack, ackBits, max), Unacked(ack, ackBits, max);
    assert Keep([], f) == [] && Keep([], g) == [] && kept + [] == kept;
    assert now.acked + [] == now.acked;
  }

  /** One acknowledged packet: averaged, inserted, listed, counted and erased. */
  method MoveToAcked(i: nat, pendingAckQueue: PacketQueue, ackedQueue: PacketQueue,
                     acked: seq<nat>, ackedPackets: nat, rtt: real, max: MaxSequence)
    returns (acked': seq<nat>, ackedPackets': nat, rtt': real)
    requires pendingAckQueue != ackedQueue && i < |pendingAckQueue.items|
    modifies pendingAckQueue, ackedQueue
    ensures pendingAckQueue.items == old(pendingAckQueue.items)[..i] + old(pendingAckQueue.items)[i + 1..]
    ensures var p := old(pendingAckQueue.items)[i];
            && ackedQueue.items == SortedInsert(old(ackedQueue.items), p, max)
            && acked' == acked + [p.sequence] && ackedPackets' == ToUInt32(ackedPackets + 1) && rtt' == NextRtt(rtt, p)
  {
    var p := pendingAckQueue.items[i];
    rtt' := NextRtt(rtt, p);
    ackedQueue.InsertSorted(p, max);
    acked' := acked + [p.sequence];
    ackedPackets' := ToUInt32(ackedPackets + 1);
    pendingAckQueue.items := pendingAckQueue.items[..i] + pendingAckQueue.items[i + 1..];
  }

  /** The loop over the pending packets. */
  method ProcessEach(ack: nat, ackBits: AckField, pendingAckQueue: PacketQueue, ackedQueue: PacketQueue,
                     acked: seq<nat>, ackedPackets: nat, rtt: real, max: MaxSequence)
    returns (acked': seq<nat>, ackedPackets': nat, rtt': real)
    requires pendingAckQueue != ackedQueue && PendingDefined(pendingAckQueue.items, ack, max)
    requires ackedPackets < TWO_32
    modifies pendingAckQueue, ackedQueue
    ensures Halfway(Totals(old(ackedQueue.items), acked, ackedPackets, rtt), old(pendingAckQueue.items),
                    Totals(ackedQueue.items, acked', ackedPackets', rtt'), pendingAckQueue.items, [], ack, ackBits, max)
  {
    hide Halfway, PendingDefined, ShiftIsDefined, WasAcked, SortedInsert, NextRtt, ToUInt32;
    acked', ackedPackets', rtt' := acked, ackedPackets, rtt;
    ghost var all, start := pendingAckQueue.items, Totals(ackedQueue.items, acked, ackedPackets, rtt);
    NothingYet(start, all, ack, ackBits, max);
    assert all[..0] == [] && all[0..] == all;
    var i := 0;
    while i < |pendingAckQueue.items|
      invariant 0 <= i <= |pendingAckQueue.items| && PendingDefined(pendingAckQueue.items, ack, max)
      invariant Halfway(start, all, Totals(ackedQueue.items, acked', ackedPackets', rtt'),
                        pendingAckQueue.items[..i], pendingAckQueue.items[i..], ack, ackBits, max)
      decreases |pendingAckQueue.items| - i
    {
      ghost var q, now := pendingAckQueue.items, Totals(ackedQueue.items, acked', ackedPackets', rtt');
      Passed(q, i);
      ErasedIsDefined(q, i, ack, max);
      var p := pendingAckQueue.items[i];
      var wasAcked := IsAcked(p.sequence, ack, ackBits, max);
      if wasAcked {
        TakesOne(start, all, now, q[..i], q[i..], ack, ackBits, max);
        Erased(q, i);
        acked', ackedPackets', rtt' := MoveToAcked(i, pendingAckQueue, ackedQueue, acked', ackedPackets', rtt', max);
      } else {
        LeavesOne(start, all, now, q[..i], q[i..], ack, ackBits, max);
        i := i + 1;
      }
    }
    ghost var q := pendingAckQueue.items;
    assert q[i..] == [] && q[..i] == q;
  }

  method ProcessAckOn(ack: nat, ackBits: AckField, pendingAckQueue: PacketQueue, ackedQueue: PacketQueue,
                      acked: seq<nat>, ackedPackets: nat, rtt: real, max: MaxSequence)
    returns (acked': seq<nat>, ackedPackets': nat, rtt': real)
    requires pendingAckQueue != ackedQueue && PendingDefined(pendingAckQueue.items, ack, max)
    requires ackedPackets < TWO_32
    modifies pendingAckQueue, ackedQueue
    ensures var taken := Keep(old(pendingAckQueue.items), Acked(ack, ackBits, max));
            && pendingAckQueue.items == Keep(old(pendingAckQueue.items), Unacked(ack, ackBits, max))
            && ackedQueue.items == InsertAll(old(ackedQueue.items), taken, max)
            && acked' == acked + Sequences(taken)
            && ackedPackets' == ToUInt32(ackedPackets + |taken|)
            && rtt' == SmoothedRtt(rtt, taken)
  {
    hide Halfway, PendingDefined, Acked, Unacked, Keep, InsertAll, Sequences, SmoothedRtt, ToUInt32;
    acked', ackedPackets', rtt' := acked, ackedPackets, rtt;
    ghost var all, start := pendingAckQueue.items, Totals(ackedQueue.items, acked, ackedPackets, rtt);
    if pendingAckQueue.items == [] {
      NothingYet(start, all, ack, ackBits, max);
    } else {
      acked', ackedPackets', rtt' := ProcessEach(ack, ackBits, pendingAckQueue, ackedQueue, acked, ackedPackets,
          rtt, max);
    }
    AllDealtWith(start, all, Totals(ackedQueue.items, acked', ackedPackets', rtt'), pendingAckQueue.items, ack,
        ackBits, max);
  }

  /** The test each pending packet is put to. */
  method IsAcked(sequence: nat, ack: nat, ackBits: AckField, max: MaxSequence) returns (wasAcked: bool)
    requires ShiftIsDefined(sequence, ack, max)
    ensures wasAcked == WasAcked(sequence, ack, ackBits, max)
  {
    wasAcked := false;
    if sequence == ack {
      wasAcked := true;
    } else if !IsMoreRecent(sequence, ack, max) {
      hide BitIndex, IsMoreRecent;
      var bitIndex := BitIndex(sequence, ack, max);
      if bitIndex <= 31 {
        wasAcked := ackBits[bitIndex];
      }
    }
  }
}
