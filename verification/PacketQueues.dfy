/** The packet queue and the list operations the reliability system is specified with. */
module PacketQueues {
  import opened SequenceNumbers

  datatype PacketData = PacketData(sequence: nat, time: real, size: int)

  ghost predicate InRange(q: seq<PacketData>, max: nat) {
    forall i :: 0 <= i < |q| ==> q[i].sequence <= max
  }

  predicate Holds(q: seq<PacketData>, sequence: nat) {
    exists i :: 0 <= i < |q| && q[i].sequence == sequence
  }

  /** Index of the first packet at or after `from` that is more recent than `sequence`. */
  function FirstNewer(q: seq<PacketData>, sequence: nat, max: nat, from: nat): (k: nat)
    requires from <= |q|
    ensures from <= k <= |q|
    ensures forall i :: from <= i < k ==> !IsMoreRecent(q[i].sequence, sequence, max)
    ensures k < |q| ==> IsMoreRecent(q[k].sequence, sequence, max)
    decreases |q| - from
  {
    if from == |q| || IsMoreRecent(q[from].sequence, sequence, max) then from
    else FirstNewer(q, sequence, max, from + 1)
  }

  /** The queue `InsertSorted` leaves behind. A packet that is neither older than the front nor
      newer than the back goes before the first newer entry, and nowhere if there is none. */
  function SortedInsert(q: seq<PacketData>, p: PacketData, max: nat): seq<PacketData> {
    if q == [] then [p]
    else if !IsMoreRecent(p.sequence, q[0].sequence, max) then [p] + q
    else if IsMoreRecent(p.sequence, q[|q| - 1].sequence, max) then q + [p]
    else
      var k := FirstNewer(q, p.sequence, max, 0);
      if k < |q| then q[..k] + [p] + q[k..] else q
  }

  class PacketQueue {
    var items: seq<PacketData>

    constructor ()
      ensures items == []
    {
      items := [];
    }

    method Exists(sequence: nat) returns (found: bool)
      ensures found <==> Holds(items, sequence)
    {
      for i := 0 to |items|
        invariant !Holds(items[..i], sequence)
      {
        if items[i].sequence == sequence {
          return true;
        }
        assert items[..i + 1] == items[..i] + [items[i]];
      }
      assert items[..|items|] == items;
      return false;
    }

    method InsertSorted(p: PacketData, max: nat)
      modifies this
      ensures items == SortedInsert(old(items), p, max)
    {
      if items == [] {
        items := [p];
      } else if !IsMoreRecent(p.sequence, items[0].sequence, max) {
        items := [p] + items;
      } else if IsMoreRecent(p.sequence, items[|items| - 1].sequence, max) {
        items := items + [p];
      } else {
        var i := 0;
        while i < |items|
          invariant 0 <= i <= |items|
          invariant items == old(items)
          invariant FirstNewer(items, p.sequence, max, 0) == FirstNewer(items, p.sequence, max, i)
        {
          if IsMoreRecent(items[i].sequence, p.sequence, max) {
            items := items[..i] + [p] + items[i..];
            break;
          }
          i := i + 1;
        }
      }
    }
  }

  // Sorted insertion, in terms of the packet numbers behind the sequences

  ghost predicate Increasing(numbers: seq<nat>) {
    forall i, j :: 0 <= i < j < |numbers| ==> numbers[i] < numbers[j]
  }

  /** `q` carries the packets `numbers`, in the same order. */
  ghost predicate Carries(q: seq<PacketData>, numbers: seq<nat>, max: nat) {
    && |q| == |numbers|
    && forall i :: 0 <= i < |q| ==> q[i].sequence == SequenceOf(numbers[i], max)
  }

  ghost predicate WithinHalfRange(numbers: seq<nat>, n: nat, max: nat) {
    forall i :: 0 <= i < |numbers| ==> Distance(numbers[i], n) <= max / 2
  }

  lemma ComparesByNumber(q: seq<PacketData>, numbers: seq<nat>, n: nat, max: nat)
    requires Carries(q, numbers, max) && WithinHalfRange(numbers, n, max)
    ensures var s := SequenceOf(n, max);
            forall i :: 0 <= i < |q| ==>
              && (IsMoreRecent(s, q[i].sequence, max) <==> n > numbers[i])
              && (IsMoreRecent(q[i].sequence, s, max) <==> n < numbers[i])
              && (q[i].sequence == s <==> n == numbers[i])
  {
    forall i | 0 <= i < |q|
      ensures var s := SequenceOf(n, max);
              && (IsMoreRecent(s, q[i].sequence, max) <==> n > numbers[i])
              && (IsMoreRecent(q[i].sequence, s, max) <==> n < numbers[i])
              && (q[i].sequence == s <==> n == numbers[i])
    {
      RecentIsNewer(n, numbers[i], max);
      RecentIsNewer(numbers[i], n, max);
    }
  }

  lemma InsertedIncreasing(numbers: seq<nat>, n: nat, k: nat)
    requires Increasing(numbers) && k <= |numbers|
    requires k > 0 ==> numbers[k - 1] < n
    requires k < |numbers| ==> n < numbers[k]
    ensures Increasing(numbers[..k] + [n] + numbers[k..])
  {
  }

  /** Inserting a new packet into a queue sorted by packet number puts it where it belongs:
      the result is sorted again and holds the old packets and the new one. */
  lemma InsertKeepsOrder(q: seq<PacketData>, numbers: seq<nat>, p: PacketData, n: nat, max: nat) returns (k: nat)
    requires Carries(q, numbers, max) && Increasing(numbers) && p.sequence == SequenceOf(n, max)
    requires WithinHalfRange(numbers, n, max) && n !in numbers
    ensures k <= |q|
    ensures SortedInsert(q, p, max) == q[..k] + [p] + q[k..]
    ensures Increasing(numbers[..k] + [n] + numbers[k..])
    ensures Carries(SortedInsert(q, p, max), numbers[..k] + [n] + numbers[k..], max)
  {
    ComparesByNumber(q, numbers, n, max);
    hide SequenceOf, IsMoreRecent, WithinHalfRange;
    k := if q == [] || n < numbers[0] then 0
         else if n > numbers[|q| - 1] then |q|
         else FirstNewer(q, p.sequence, max, 0);
    assert k > 0 ==> numbers[k - 1] < n;
    assert SortedInsert(q, p, max) == q[..k] + [p] + q[k..];
    InsertedIncreasing(numbers, n, k);
    hide SortedInsert, Increasing;
  }

  lemma InsertedContents(q: seq<PacketData>, p: PacketData, k: nat)
    requires k <= |q|
    ensures multiset(q[..k] + [p] + q[k..]) == multiset(q) + multiset{p}
  {
    assert q == q[..k] + q[k..];
  }

  /** Every packet is stored, except one for which the search for a newer entry fails. */
  lemma StoredUnlessNoneNewer(q: seq<PacketData>, p: PacketData, max: nat)
    ensures multiset(SortedInsert(q, p, max)) == multiset(q) + multiset{p} ||
            (&& SortedInsert(q, p, max) == q && q != []
             && IsMoreRecent(p.sequence, q[0].sequence, max)
             && !IsMoreRecent(p.sequence, q[|q| - 1].sequence, max)
             && forall i :: 0 <= i < |q| ==> !IsMoreRecent(q[i].sequence, p.sequence, max))
  {
    hide IsMoreRecent;
    var k := FirstNewer(q, p.sequence, max, 0);
    if q != [] && IsMoreRecent(p.sequence, q[0].sequence, max) && !IsMoreRecent(p.sequence, q[|q| - 1].sequence, max) {
      InsertedContents(q, p, k);
    }
  }

  /** What happens to a packet that is already there: in a sorted queue of two or more, one
      equal to the back is dropped without notice; every other packet is stored. */
  lemma InsertDropsExactlyTheBack(q: seq<PacketData>, numbers: seq<nat>, p: PacketData, n: nat, max: nat)
    requires Carries(q, numbers, max) && Increasing(numbers) && p.sequence == SequenceOf(n, max)
    requires WithinHalfRange(numbers, n, max)
    ensures var r := SortedInsert(q, p, max);
            if |q| >= 2 && p.sequence == q[|q| - 1].sequence then r == q
            else multiset(r) == multiset(q) + multiset{p}
  {
    ComparesByNumber(q, numbers, n, max);
    hide SequenceOf, IsMoreRecent, WithinHalfRange;
    if |q| >= 2 && p.sequence == q[|q| - 1].sequence {
      assert IsMoreRecent(p.sequence, q[0].sequence, max);
    } else {
      StoredUnlessNoneNewer(q, p, max);
      hide SortedInsert;
    }
  }

  // List functions

  function Keep(q: seq<PacketData>, f: PacketData -> bool): seq<PacketData> {
    if q == [] then []
    else if f(q[0]) then [q[0]] + Keep(q[1..], f)
    else Keep(q[1..], f)
  }

  lemma {:induction false} KeepHolds(q: seq<PacketData>, f: PacketData -> bool, p: PacketData)
    ensures p in Keep(q, f) <==> p in q && f(p)
  {
    if q != [] {
      KeepHolds(q[1..], f, p);
      assert q == [q[0]] + q[1..];
    }
  }

  /** The queue without the packets popped from its front while `f` holds of them. */
  function DropWhile(q: seq<PacketData>, f: PacketData -> bool): (r: seq<PacketData>)
    ensures |r| <= |q|
  {
    if q == [] || !f(q[0]) then q else DropWhile(q[1..], f)
  }

  /** Exactly the longest prefix on which `f` holds is dropped. */
  lemma {:induction false} DropWhileIsSuffix(q: seq<PacketData>, f: PacketData -> bool)
    ensures var r := DropWhile(q, f);
            && r == q[|q| - |r|..]
            && (r != [] ==> !f(r[0]))
            && forall i :: 0 <= i < |q| - |r| ==> f(q[i])
  {
    if q != [] && f(q[0]) {
      DropWhileIsSuffix(q[1..], f);
    }
  }

  function Aged(q: seq<PacketData>, delta: real): (r: seq<PacketData>)
    ensures |r| == |q|
  {
    if q == [] then [] else [q[0].(time := q[0].time + delta)] + Aged(q[1..], delta)
  }

  lemma {:induction false} AgedAt(q: seq<PacketData>, delta: real)
    ensures forall i :: 0 <= i < |q| ==> Aged(q, delta)[i] == q[i].(time := q[i].time + delta)
  {
    if q != [] {
      AgedAt(q[1..], delta);
    }
  }

  function Sequences(q: seq<PacketData>): (r: seq<nat>)
    ensures |r| == |q|
  {
    if q == [] then [] else [q[0].sequence] + Sequences(q[1..])
  }

  // Age order

  /** Oldest first, and no packet from the future. */
  ghost predicate OldestFirst(q: seq<PacketData>) {
    && (forall i, j :: 0 <= i < j < |q| ==> q[i].time >= q[j].time)
    && (forall i :: 0 <= i < |q| ==> q[i].time >= 0.0)
  }

  function OlderThan(limit: real): PacketData -> bool {
    (p: PacketData) => p.time > limit
  }

  function NotOlderThan(limit: real): PacketData -> bool {
    (p: PacketData) => p.time <= limit
  }

  /** In a queue ordered by age, popping from the front removes exactly the over-age packets,
      wherever they are. */
  lemma {:induction false} PoppingRemovesTheOverAge(q: seq<PacketData>, limit: real)
    requires OldestFirst(q)
    ensures DropWhile(q, OlderThan(limit)) == Keep(q, NotOlderThan(limit))
  {
    if q == [] {
    } else if q[0].time > limit {
      PoppingRemovesTheOverAge(q[1..], limit);
    } else {
      KeepAll(q, NotOlderThan(limit));
    }
  }

  lemma {:induction false} KeepAll(q: seq<PacketData>, f: PacketData -> bool)
    requires forall i :: 0 <= i < |q| ==> f(q[i])
    ensures Keep(q, f) == q
  {
    if q != [] {
      KeepAll(q[1..], f);
    }
  }

  lemma {:induction false} KeepIsOldestFirst(q: seq<PacketData>, f: PacketData -> bool)
    requires OldestFirst(q)
    ensures OldestFirst(Keep(q, f))
  {
    if q != [] {
      KeepIsOldestFirst(q[1..], f);
      var r := Keep(q[1..], f);
      forall i | 0 <= i < |r| ensures q[0].time >= r[i].time {
        KeepHolds(q[1..], f, r[i]);
      }
    }
  }
}
