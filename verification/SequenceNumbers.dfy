/** Wrapping packet sequence numbers.

    Packets are numbered 0, 1, 2, ... without end; a packet carries its number modulo
    max + 1. Everything here relates the arithmetic done on the carried sequences to the
    numbers they stand for. */
module SequenceNumbers {

  const TWO_32: int := 0x1_0000_0000
  const MAX_U32: nat := 0xFFFF_FFFF

  /** The largest sequence must itself fit the 32 bits it is carried in. */
  type MaxSequence = m: nat | m <= 0xFFFF_FFFF

  function ToUInt32(x: int): (u: nat)
    ensures u < TWO_32
  {
    x % TWO_32
  }

  /** Conversion of an unsigned 32-bit value to a signed one: two's complement. */
  function ToInt32(u: nat): int
    requires u < TWO_32
  {
    if u < 0x8000_0000 then u else u - TWO_32
  }

  /** The sequence carried by packet `number`. */
  function SequenceOf(number: nat, max: nat): nat {
    number % (max + 1)
  }

  function Distance(a: int, b: int): nat {
    if a < b then b - a else a - b
  }

  predicate IsMoreRecent(s1: nat, s2: nat, max: nat) {
    (s1 > s2 && s1 - s2 <= max / 2) || (s2 > s1 && s2 - s1 > max / 2)
  }

  /** Position of `sequence` in the ack bitfield of `ack`, in unsigned 32-bit arithmetic, then read
      as a signed number. */
  function BitIndex(sequence: nat, ack: nat, max: nat): int {
    if sequence > ack then
      ToInt32(ToUInt32(ack + ToUInt32(max - sequence)))
    else
      ToInt32(ToUInt32(ToUInt32(ack - 1) - sequence))
  }

  /** Of two different sequences exactly one is more recent than the other, and none is more
      recent than itself. */
  lemma RecentInOneDirection(s1: nat, s2: nat, max: nat)
    ensures !(IsMoreRecent(s1, s2, max) && IsMoreRecent(s2, s1, max))
    ensures s1 != s2 <==> IsMoreRecent(s1, s2, max) || IsMoreRecent(s2, s1, max)
  {
  }

  lemma ProductGrows(k: int, n: int)
    requires n > 0
    ensures k >= 1 ==> k * n >= n
    ensures k >= 2 ==> k * n >= 2 * n
    ensures k <= -1 ==> k * n <= -n
  {
    if k >= 2 {
      assert k * n == 2 * n + (k - 2) * n;
    } else if k <= -1 {
      assert k * n == -n + (k + 1) * n;
    }
  }

  /** A multiple of n strictly between -n and 2n is 0 or n. */
  lemma FewTurns(k: int, n: int)
    requires n > 0 && -n < k * n < 2 * n
    ensures k * n == 0 || k * n == n
  {
    ProductGrows(k, n);
    assert k == 0 || k == 1;
  }

  lemma Division(a: nat, n: nat) returns (turns: nat)
    requires n > 0
    ensures a == turns * n + a % n && a % n < n
  {
    turns := a / n;
  }

  /** Two numbers at most `max` apart carry sequences that differ by their difference or by
      their difference less one turn. */
  lemma SequenceDifference(a: nat, b: nat, max: nat)
    requires b <= a <= b + max
    ensures SequenceOf(a, max) <= max && SequenceOf(b, max) <= max
    ensures var d := SequenceOf(a, max) - SequenceOf(b, max);
            d == a - b || d == a - b - (max + 1)
  {
    var n := max + 1;
    var ka := Division(a, n);
    var kb := Division(b, n);
    var d := SequenceOf(a, max) - SequenceOf(b, max);
    assert (ka - kb) * n == ka * n - kb * n == a - b - d;
    FewTurns(ka - kb, n);
  }

  /** On any half range "more recent" is the order of the packet numbers, hence a strict total
      order there, whether or not the range wraps around. */
  lemma RecentIsNewer(a: nat, b: nat, max: nat)
    requires Distance(a, b) <= max / 2
    ensures IsMoreRecent(SequenceOf(a, max), SequenceOf(b, max), max) <==> a > b
    ensures SequenceOf(a, max) == SequenceOf(b, max) <==> a == b
  {
    if a >= b {
      SequenceDifference(a, b, max);
    } else {
      SequenceDifference(b, a, max);
    }
  }

  /** Packets less than a whole turn apart are told apart by their sequences. */
  lemma SequenceIsUnique(a: nat, b: nat, max: nat)
    requires Distance(a, b) <= max
    ensures SequenceOf(a, max) == SequenceOf(b, max) <==> a == b
  {
    if a >= b {
      SequenceDifference(a, b, max);
    } else {
      SequenceDifference(b, a, max);
    }
  }

  lemma FitsUInt32(x: int)
    requires 0 <= x < TWO_32
    ensures ToUInt32(x) == x
  {
  }

  /** The 32-bit computation without its conversions, which change nothing when the result
      fits 31 bits. */
  lemma BitIndexWithoutWrap(sequence: nat, ack: nat, max: MaxSequence)
    requires sequence <= max && ack <= max && sequence != ack
    requires if sequence > ack then ack + (max - sequence) < 0x8000_0000 else ack - 1 - sequence < 0x8000_0000
    ensures BitIndex(sequence, ack, max) ==
            if sequence > ack then ack + (max - sequence) else ack - 1 - sequence
  {
    hide ToUInt32;
    if sequence > ack {
      FitsUInt32(max - sequence);
      FitsUInt32(ack + (max - sequence));
    } else {
      FitsUInt32(ack - 1);
      FitsUInt32(ack - 1 - sequence);
    }
  }

  /** For every sequence that is not newer than the ack, the 32-bit computation of the bit
      index neither wraps nor turns negative: it is the number of steps back from the sequence
      before the ack. */
  lemma BitIndexCountsBack(sequence: nat, ack: nat, max: MaxSequence)
    requires sequence <= max && ack <= max
    requires sequence != ack && !IsMoreRecent(sequence, ack, max)
    ensures 0 <= BitIndex(sequence, ack, max) < 0x8000_0000
    ensures BitIndex(sequence, ack, max) == (ack - 1 - sequence) % (max + 1)
  {
    hide BitIndex;
    BitIndexWithoutWrap(sequence, ack, max);
    if sequence > ack {
      RemainderIs(ack - 1 - sequence, -1, ack + (max - sequence), max + 1);
    } else {
      RemainderIs(ack - 1 - sequence, 0, ack - 1 - sequence, max + 1);
    }
  }

  /** The bit of a sequence that is neither the ack nor newer is shifted by its index, and a shift
      by a negative count is undefined. */
  predicate ShiftIsDefined(sequence: nat, ack: nat, max: nat) {
    sequence == ack || IsMoreRecent(sequence, ack, max) || BitIndex(sequence, ack, max) >= 0
  }

  lemma WrapsOnce(a: nat, x: int)
    ensures ToUInt32(a + ToUInt32(x)) == ToUInt32(a + x)
  {
  }

  lemma NegativeWraps(x: int)
    requires -TWO_32 <= x < 0
    ensures ToUInt32(x) == x + TWO_32
  {
  }

  /** Any 32-bit sequence and ack, beyond max or not: the shift is undefined exactly when the sequence
      lies beyond ack + max, by no more than 2^31. */
  lemma ShiftIsUndefinedExactly(sequence: nat, ack: nat, max: MaxSequence)
    requires sequence <= MAX_U32 && ack <= MAX_U32
    ensures ShiftIsDefined(sequence, ack, max) <==> !(ack + max < sequence <= ack + max + 0x8000_0000)
  {
    hide ToUInt32;
    if sequence > ack {
      var x := ack + (max - sequence);
      WrapsOnce(ack, max - sequence);
      if x >= 0 && !IsMoreRecent(sequence, ack, max) {
        FitsUInt32(x);
      } else if x < 0 {
        NegativeWraps(x);
      }
    } else if sequence < ack && !IsMoreRecent(sequence, ack, max) {
      FitsUInt32(ack - 1);
      FitsUInt32(ack - 1 - sequence);
    }
  }

  lemma RemainderIs(x: int, k: int, r: nat, n: nat)
    requires r < n && x == k * n + r
    ensures x % n == r
  {
    var q := x / n;
    assert x == q * n + x % n;
    assert (q - k) * n == q * n - k * n == r - x % n;
    ProductGrows(q - k, n);
  }

  lemma BitIndexOfNumber(number: nat, ack: nat, max: MaxSequence)
    requires number < ack && ack - number <= max / 2
    ensures BitIndex(SequenceOf(number, max), SequenceOf(ack, max), max) == ack - 1 - number
  {
    RecentIsNewer(number, ack, max);
    SequenceDifference(ack, number, max);
    hide SequenceOf, BitIndex;
    BitIndexWithoutWrap(SequenceOf(number, max), SequenceOf(ack, max), max);
  }
}
