/** Pruning over whole runs: an endpoint that prunes its received queue sends the same acks as one
    that remembers every packet it ever received. */
module PruningRuns {
  import opened SequenceNumbers
  import opened PacketQueues
  import opened AckFields
  import opened Reliability
  import opened AckRuns
  import opened ReceivedPruning

  datatype Event = Hears(p: Packet, size: int) | Speaks(size: int) | Ticks(deltaTime: real)

  function After(node: Node, e: Event): Node {
    match e
    case Hears(p, size) => Delivered(node, p, size)
    case Speaks(size) => Sent(node, size)
    case Ticks(deltaTime) => Ticked(node, deltaTime)
  }

  /** Every packet received, in the order of the first arrival. */
  function Remembered(history: seq<nat>, e: Event): seq<nat> {
    if e.Hears? && e.p.number !in history then history + [e.p.number] else history
  }

  /** The field for that memory, by numbers alone: bit k for the packet k + 1 before the latest, if it
      arrived before the latest did. */
  ghost function MemoryField(history: seq<nat>, latest: nat): AckField {
    seq(32, k => latest - 1 - k >= 0 && latest - 1 - k in history[..FirstAtLeast(history, latest)])
  }

  /** A packet that arrives is within half the sequence range of what is still in the queue; and when
      the queue is pruned no packet leads the last arrival by more than the limit. */
  ghost predicate Admissible(node: Node, e: Event) {
    match e
    case Hears(p, _) =>
      && p.sequence == SequenceOf(p.number, node.link.max)
      && WithinHalfRange(node.got, p.number, node.link.max) && Distance(node.latest, p.number) <= node.link.max / 2
    case Speaks(_) => true
    case Ticks(_) => LeadLimit(node.link.max) >= 0 && LeadsByAtMost(node.got, LeadLimit(node.link.max))
  }

  // What the queue and the memory have in common

  /** The numbers from m on, in order. */
  function Recent(numbers: seq<nat>, m: int): seq<nat> {
    if numbers == [] then []
    else if numbers[0] >= m then [numbers[0]] + Recent(numbers[1..], m)
    else Recent(numbers[1..], m)
  }

  lemma {:induction false} RecentHolds(numbers: seq<nat>, m: int, n: nat)
    ensures n in Recent(numbers, m) <==> n in numbers && n >= m
  {
    if numbers != [] {
      RecentHolds(numbers[1..], m, n);
      assert numbers == [numbers[0]] + numbers[1..];
    }
  }

  lemma {:induction false} RecentAppend(a: seq<nat>, b: seq<nat>, m: int)
    ensures Recent(a + b, m) == Recent(a, m) + Recent(b, m)
  {
    if a == [] {
      assert a + b == b;
    } else {
      assert (a + b)[0] == a[0] && (a + b)[1..] == a[1..] + b;
      RecentAppend(a[1..], b, m);
    }
  }

  lemma {:induction false} RecentAgain(numbers: seq<nat>, m: int, m': int)
    requires m <= m'
    ensures Recent(Recent(numbers, m), m') == Recent(numbers, m')
  {
    if numbers != [] {
      RecentAgain(numbers[1..], m, m');
      if numbers[0] >= m {
        assert Recent(numbers, m)[1..] == Recent(numbers[1..], m);
      }
    }
  }

  lemma {:induction false} NoneRecent(numbers: seq<nat>, m: int)
    requires forall i :: 0 <= i < |numbers| ==> numbers[i] < m
    ensures Recent(numbers, m) == []
  {
    if numbers != [] {
      NoneRecent(numbers[1..], m);
    }
  }

  lemma OneRecent(n: nat, m: int)
    ensures Recent([n], m) == if n >= m then [n] else []
  {
    assert [n][1..] == [];
  }

  /** What arrived before the ack can be read off the recent numbers. */
  lemma {:induction false} BeforeAmongRecent(numbers: seq<nat>, m: int, ack: nat, x: nat)
    requires m <= x < ack
    ensures x in numbers[..FirstAtLeast(numbers, ack)] <==>
            x in Recent(numbers, m)[..FirstAtLeast(Recent(numbers, m), ack)]
  {
    if numbers != [] && numbers[0] < ack {
      BeforeAmongRecent(numbers[1..], m, ack, x);
      var k := FirstAtLeast(numbers[1..], ack);
      assert numbers[..1 + k] == [numbers[0]] + numbers[1..][..k];
      if numbers[0] >= m {
        var r := Recent(numbers[1..], m);
        var j := FirstAtLeast(r, ack);
        assert Recent(numbers, m) == [numbers[0]] + r && Recent(numbers, m)[1..] == r;
        assert ([numbers[0]] + r)[..1 + j] == [numbers[0]] + r[..j];
      }
    } else if numbers != [] {
      assert Recent(numbers, m)[0] == numbers[0];
    }
  }

  const REPORTED: nat := 32

  ghost predicate Alike(node: Node, history: seq<nat>) {
    && ReceiveSide(node)
    && (forall n :: n in node.got ==> n in history)
    && (forall n :: n in history ==> n <= node.latest)
    && Recent(node.got, node.latest - REPORTED) == Recent(history, node.latest - REPORTED)
  }

  /** The field that is sent is the one of the whole memory. */
  lemma AlikeReport(node: Node, history: seq<nat>)
    requires Alike(node, history)
    ensures PacketFrom(node).ackBits == MemoryField(history, node.latest)
  {
    hide SequenceOf, FieldOf, Recent, FirstAtLeast;
    var latest, m: int := node.latest, node.latest - REPORTED;
    forall k | 0 <= k < 32
      ensures PacketFrom(node).ackBits[k] == MemoryField(history, latest)[k]
    {
      assert WithinHalfRange(node.got, latest, node.link.max);
      BitMeansArrivedBefore(node.link.receivedQueue, node.got, latest, node.link.max, k);
      if k < latest {
        BeforeAmongRecent(node.got, m, latest, latest - 1 - k);
        BeforeAmongRecent(history, m, latest, latest - 1 - k);
      }
    }
  }

  // The steps

  lemma ArrivalIsKnownByNumber(node: Node, p: Packet, size: int)
    requires ReceiveSide(node) && Admissible(node, Hears(p, size))
    ensures var after := Arrived(node, p, size);
            && ReceiveSide(after)
            && after.got == (if p.number in node.got then node.got else node.got + [p.number])
            && after.latest == if p.number > node.latest then p.number else node.latest
  {
    ArrivalKeepsReceiveSide(node, p, size);
    KnownByNumber(node.link.receivedQueue, node.got, p.number, node.link.max);
    RecentIsNewer(p.number, node.latest, node.link.max);
    hide SequenceOf, IsMoreRecent, Holds, ToUInt32;
  }

  /** Both take the packet as new; or both know it; or only the memory does, and then it is too old to
      be reported. */
  lemma TakenAlike(got: seq<nat>, history: seq<nat>, n: nat, latest: nat, latest': nat)
    requires forall x :: x in got ==> x in history
    requires latest' == if n > latest then n else latest
    requires forall x :: x in history ==> x <= latest
    requires Recent(got, latest - REPORTED) == Recent(history, latest - REPORTED)
    ensures Recent(if n in got then got else got + [n], latest' - REPORTED) ==
            Recent(if n in history then history else history + [n], latest' - REPORTED)
  {
    hide Recent;
    var m, m' := latest - REPORTED, latest' - REPORTED;
    RecentAgain(got, m, m');
    RecentAgain(history, m, m');
    RecentAppend(got, [n], m');
    RecentAppend(history, [n], m');
    OneRecent(n, m');
    RecentHolds(got, m, n);
    RecentHolds(history, m, n);
  }

  lemma HearingKeepsAlike(node: Node, history: seq<nat>, p: Packet, size: int)
    requires Alike(node, history) && Admissible(node, Hears(p, size))
    ensures Alike(Delivered(node, p, size), Remembered(history, Hears(p, size)))
  {
    hide Recent, ReceiveSide;
    ArrivalIsKnownByNumber(node, p, size);
    var arrived := Arrived(node, p, size);
    hide Arrived, Admissible;
    TakenAlike(node.got, history, p.number, node.latest, arrived.latest);
    AckKeepsReceiveSide(arrived, p);
    var after := Acknowledged(arrived, p);
    assert after.got == arrived.got && after.latest == arrived.latest;
    hide Acknowledged;
  }

  lemma SpeakingKeepsAlike(node: Node, history: seq<nat>, size: int)
    requires Alike(node, history)
    ensures Alike(Sent(node, size), history)
  {
    SendKeepsReceiveSide(node, size);
    hide ReceiveSide, Recent;
  }

  /** What is pruned lies too far back to be reported. */
  lemma PrunesOnlyTheOld(q: seq<PacketData>, got: seq<nat>, latest: nat, max: MaxSequence)
    requires max > 68 && LeadLimit(max) >= 0
    requires Carries(q, got, max) && HalfRangeUpTo(got, latest, max) && LeadsByAtMost(got, LeadLimit(max))
    ensures |Pruned(q, max)| <= |q|
    ensures forall i :: 0 <= i < |q| - |Pruned(q, max)| ==> got[i] < latest - REPORTED
  {
    if q != [] {
      var last := got[|got| - 1];
      var f := TooOld(MinimumSequence(SequenceOf(last, max), max), max);
      DropWhileIsSuffix(q, f);
      var r := Pruned(q, max);
      forall i | 0 <= i < |q| - |r| ensures got[i] < latest - REPORTED {
        TooOldByNumber(got[i], last, max);
        assert f(q[i]);
        hide SequenceOf, MinimumSequence, DropWhile, IsMoreRecent;
      }
    }
  }

  lemma TickingKeepsAlike(node: Node, history: seq<nat>, deltaTime: real)
    requires Alike(node, history) && Admissible(node, Ticks(deltaTime)) && node.link.max > 68
    ensures Alike(Ticked(node, deltaTime), history)
  {
    hide Recent, AfterUpdate, Pruned, Aged;
    TickKeepsReceiveSide(node, deltaTime);
    var q := Aged(node.link.receivedQueue, deltaTime);
    AgedAt(node.link.receivedQueue, deltaTime);
    UpdatedReceivedQueue(node.link, deltaTime);
    AgedCarries(node.link.receivedQueue, node.got, deltaTime, node.link.max);
    PrunesOnlyTheOld(q, node.got, node.latest, node.link.max);
    hide ReceiveSide;
    var after := Ticked(node, deltaTime);
    var k := |node.got| - |after.got|;
    assert node.got == node.got[..k] + after.got;
    RecentAppend(node.got[..k], after.got, node.latest - REPORTED);
    NoneRecent(node.got[..k], node.latest - REPORTED);
    assert after.latest == node.latest;
  }

  lemma AgedCarries(q: seq<PacketData>, numbers: seq<nat>, deltaTime: real, max: nat)
    requires Carries(q, numbers, max)
    ensures Carries(Aged(q, deltaTime), numbers, max)
  {
    AgedAt(q, deltaTime);
    hide Aged, SequenceOf;
  }

  // Runs

  function AfterAll(node: Node, events: seq<Event>): Node {
    if events == [] then node else After(AfterAll(node, events[..|events| - 1]), events[|events| - 1])
  }

  function Memory(events: seq<Event>): seq<nat> {
    if events == [] then [] else Remembered(Memory(events[..|events| - 1]), events[|events| - 1])
  }

  ghost predicate AllAdmissible(node: Node, events: seq<Event>) {
    forall i :: 0 <= i < |events| ==> Admissible(AfterAll(node, events[..i]), events[i])
  }

  lemma {:induction false} RunsStayAlike(max: MaxSequence, events: seq<Event>)
    requires max > 68 && AllAdmissible(FreshNode(max), events)
    ensures Alike(AfterAll(FreshNode(max), events), Memory(events))
    ensures AfterAll(FreshNode(max), events).link.max == max
  {
    hide Admissible, Alike, After;
    if events == [] {
      StartsAlike(max);
    } else {
      var n := |events| - 1;
      var before, e := events[..n], events[n];
      assert forall i :: 0 <= i < n ==> before[..i] == events[..i] && before[i] == events[i];
      RunsStayAlike(max, before);
      StepKeepsAlike(AfterAll(FreshNode(max), before), Memory(before), e);
    }
  }

  lemma StartsAlike(max: MaxSequence)
    ensures Alike(FreshNode(max), [])
  {
    StartIsSound(max);
  }

  lemma StepKeepsAlike(node: Node, history: seq<nat>, e: Event)
    requires Alike(node, history) && Admissible(node, e) && node.link.max > 68
    ensures Alike(After(node, e), Remembered(history, e)) && After(node, e).link.max == node.link.max
  {
    hide Alike, Admissible, Delivered, Ticked, Sent, Remembered;
    match e
    case Hears(p, size) =>
      HearingKeepsAlike(node, history, p, size);
      DeliveredFields(node, p, size);
    case Speaks(size) =>
      SpeakingKeepsAlike(node, history, size);
      SpeakingFields(node, history, e);
    case Ticks(deltaTime) =>
      TickingKeepsAlike(node, history, deltaTime);
      TickingFields(node, history, e);
  }

  lemma SpeakingFields(node: Node, history: seq<nat>, e: Event)
    requires e.Speaks?
    ensures Sent(node, e.size).link.max == node.link.max && Remembered(history, e) == history
  {
  }

  lemma TickingFields(node: Node, history: seq<nat>, e: Event)
    requires e.Ticks?
    ensures Ticked(node, e.deltaTime).link.max == node.link.max && Remembered(history, e) == history
  {
    UpdatedReceivedQueue(node.link, e.deltaTime);
    hide AfterUpdate;
  }

  /** Pruning never shows: after every run in which packets stay within half the range of the queue
      and the lead within its limit, however long and with whatever repeats of pruned packets, the
      next ack is that of an endpoint that forgets nothing. */
  lemma PruningNeverShows(max: MaxSequence, events: seq<Event>)
    requires max > 68 && AllAdmissible(FreshNode(max), events)
    ensures var node := AfterAll(FreshNode(max), events);
            PacketFrom(node).ackBits == MemoryField(Memory(events), node.latest)
  {
    RunsStayAlike(max, events);
    AlikeReport(AfterAll(FreshNode(max), events), Memory(events));
    hide AfterAll, Memory, Alike;
  }
}
