/** The wire format: big-endian integers, length-prefixed byte arrays, hexadecimal ids. */
module Wire {

  type Byte = b: nat | b < 256
  type UInt16 = x: nat | x < 0x1_0000
  type UInt32 = x: nat | x < 0x1_0000_0000

  function Put16(x: UInt16): seq<Byte> {
    [x / 256, x % 256]
  }

  function Put32(x: UInt32): seq<Byte> {
    Put16(x / 0x1_0000) + Put16(x % 0x1_0000)
  }

  function PutBytes(bytes: seq<Byte>): seq<Byte>
    requires |bytes| < 0xFFFF_FFFF
  {
    Put32(|bytes|) + bytes
  }

  /** A stream being read. Once a read runs past the end the stream is broken, and every read
      from then on gives nothing. */
  datatype Stream = Stream(left: seq<Byte>, ok: bool)

  function Combine(high: nat, low: nat): nat {
    high * 256 + low
  }

  function Get16(s: Stream): (r: (UInt16, Stream)) {
    if s.ok && |s.left| >= 2 then (Combine(s.left[0], s.left[1]), s.(left := s.left[2..]))
    else (0, Stream([], false))
  }

  function Get32(s: Stream): (r: (UInt32, Stream)) {
    if s.ok && |s.left| >= 4 then
      (Combine(Combine(Combine(s.left[0], s.left[1]), s.left[2]), s.left[3]), s.(left := s.left[4..]))
    else (0, Stream([], false))
  }

  /** A byte array: its length, then its bytes. The length 0xFFFFFFFF stands for no array. */
  function GetBytes(s: Stream): (seq<Byte>, Stream) {
    var (length, rest) := Get32(s);
    if !rest.ok || length == 0xFFFF_FFFF then ([], rest)
    else if |rest.left| >= length then (rest.left[..length], rest.(left := rest.left[length..]))
    else ([], Stream([], false))
  }

  /** The number that bytes spell, the most significant byte first. */
  function BigEndian(bytes: seq<Byte>): nat {
    if bytes == [] then 0 else BigEndian(bytes[..|bytes| - 1]) * 256 + bytes[|bytes| - 1]
  }

  lemma BigEndianLast(bytes: seq<Byte>, b: Byte)
    ensures BigEndian(bytes + [b]) == BigEndian(bytes) * 256 + b
  {
    assert (bytes + [b])[..|bytes|] == bytes;
  }

  lemma Put16IsBigEndian(x: UInt16)
    ensures |Put16(x)| == 2 && BigEndian(Put16(x)) == x
  {
    BigEndianLast([], x / 256);
    BigEndianLast([x / 256], x % 256);
    assert [] + [x / 256] == [x / 256];
  }

  lemma Put32IsBigEndian(x: UInt32)
    ensures |Put32(x)| == 4 && BigEndian(Put32(x)) == x
  {
    var high, low := x / 0x1_0000, x % 0x1_0000;
    Put16IsBigEndian(high);
    BigEndianLast(Put16(high), low / 256);
    BigEndianLast(Put16(high) + [low / 256], low % 256);
    hide BigEndian;
    assert Put32(x) == Put16(high) + [low / 256] + [low % 256];
  }

  lemma Get16Put16(x: UInt16, rest: seq<Byte>)
    ensures Get16(Stream(Put16(x) + rest, true)) == (x, Stream(rest, true))
  {
    assert (Put16(x) + rest)[2..] == rest;
  }

  lemma Put32Bytes(x: UInt32)
    ensures Combine(Combine(Combine(Put32(x)[0], Put32(x)[1]), Put32(x)[2]), Put32(x)[3]) == x
  {
  }

  lemma Get32Put32(x: UInt32, rest: seq<Byte>)
    ensures Get32(Stream(Put32(x) + rest, true)) == (x, Stream(rest, true))
  {
    Put32Bytes(x);
    assert (Put32(x) + rest)[4..] == rest;
    hide Put32;
    assert forall i :: 0 <= i < 4 ==> (Put32(x) + rest)[i] == Put32(x)[i];
  }

  lemma GetBytesPutBytes(bytes: seq<Byte>, rest: seq<Byte>)
    requires |bytes| < 0xFFFF_FFFF
    ensures GetBytes(Stream(PutBytes(bytes) + rest, true)) == (bytes, Stream(rest, true))
  {
    hide Put32, Get32;
    assert PutBytes(bytes) + rest == Put32(|bytes|) + (bytes + rest);
    Get32Put32(|bytes|, bytes + rest);
  }

  /** The length of all ones stands for no array, and the stream goes on behind it. */
  lemma NullArrayIsRead(rest: seq<Byte>)
    ensures GetBytes(Stream([255, 255, 255, 255] + rest, true)) == ([], Stream(rest, true))
  {
    assert ([255, 255, 255, 255] + rest)[4..] == rest;
  }

  // Hexadecimal ids

  /** The value of a hexadecimal digit of either case, or -1. */
  function HexValue(c: char): (v: int)
    ensures -1 <= v < 16
  {
    if '0' <= c <= '9' then c as int - '0' as int
    else if 'A' <= c <= 'F' then c as int - 'A' as int + 10
    else if 'a' <= c <= 'f' then c as int - 'a' as int + 10
    else -1
  }

  function HexDigit(v: nat): char
    requires v < 16
  {
    if v < 10 then ('0' as int + v) as char else ('A' as int + v - 10) as char
  }

  type Nibble = v: nat | v < 16

  /** The digits in the text; everything else is skipped. */
  function HexDigits(s: string): seq<Nibble> {
    if s == "" then []
    else if HexValue(s[0]) < 0 then HexDigits(s[1..])
    else [HexValue(s[0])] + HexDigits(s[1..])
  }

  function PairByte(high: Nibble, low: Nibble): Byte {
    high * 16 + low
  }

  /** Digits paired from the end; an odd first digit makes a byte of its own. */
  function PairedNibbles(d: seq<Nibble>): seq<Byte> {
    if d == [] then []
    else if |d| == 1 then [d[0]]
    else PairedNibbles(d[..|d| - 2]) + [PairByte(d[|d| - 2], d[|d| - 1])]
  }

  function FromHex(s: string): seq<Byte> {
    PairedNibbles(HexDigits(s))
  }

  function ToHexUpper(bytes: seq<Byte>): string {
    if bytes == [] then ""
    else
      var n := |bytes| - 1;
      ToHexUpper(bytes[..n]) + [HexDigit(bytes[n] / 16), HexDigit(bytes[n] % 16)]
  }

  predicate IsUpperHex(s: string) {
    forall i :: 0 <= i < |s| ==> HexValue(s[i]) >= 0 && !('a' <= s[i] <= 'f')
  }

  /** The full id of a node: 32 bytes in upper-case hexadecimal. */
  predicate IsNodeId(s: string) {
    |s| == 64 && IsUpperHex(s)
  }

  lemma HexDigitOf(c: char)
    requires HexValue(c) >= 0 && !('a' <= c <= 'f')
    ensures HexDigit(HexValue(c)) == c
  {
  }

  lemma {:induction false} HexDigitsOf(s: string)
    requires IsUpperHex(s)
    ensures |HexDigits(s)| == |s|
    ensures forall i :: 0 <= i < |s| ==> HexDigits(s)[i] == HexValue(s[i])
  {
    if s != "" {
      HexDigitsOf(s[1..]);
    }
  }

  lemma {:induction false} HexDigitsAppend(a: string, b: string)
    ensures HexDigits(a + b) == HexDigits(a) + HexDigits(b)
  {
    if a == "" {
      assert a + b == b;
    } else {
      assert (a + b)[0] == a[0] && (a + b)[1..] == a[1..] + b;
      HexDigitsAppend(a[1..], b);
    }
  }

  lemma PairOf(c: char, d: char)
    requires IsUpperHex([c, d])
    ensures HexDigits([c, d]) == [HexValue(c), HexValue(d)]
  {
    assert [c, d][0] == c && [c, d][1] == d;
    HexDigitsOf([c, d]);
  }

  lemma PairedLast(d: seq<Nibble>, x: Nibble, y: Nibble)
    ensures PairedNibbles(d + [x, y]) == PairedNibbles(d) + [PairByte(x, y)]
  {
    assert (d + [x, y])[..|d + [x, y]| - 2] == d;
  }

  lemma HexLast(bytes: seq<Byte>, x: Nibble, y: Nibble)
    ensures ToHexUpper(bytes + [PairByte(x, y)]) == ToHexUpper(bytes) + [HexDigit(x), HexDigit(y)]
  {
    var b := PairByte(x, y);
    assert b / 16 == x && b % 16 == y;
    assert (bytes + [b])[..|bytes|] == bytes;
  }

  /** Reading an upper-case id and writing it again gives the same text. */
  lemma {:induction false} HexRoundTrip(s: string)
    requires IsUpperHex(s) && |s| % 2 == 0
    ensures ToHexUpper(FromHex(s)) == s && |FromHex(s)| == |s| / 2
    decreases |s|
  {
    hide HexValue, HexDigit, HexDigits, PairedNibbles, ToHexUpper, PairByte;
    if s == "" {
      EmptyHex();
    } else {
      var n := |s| - 2;
      var front, c, d := s[..n], s[n], s[n + 1];
      assert s == front + [c, d];
      HexRoundTrip(front);
      PairOf(c, d);
      HexDigitsAppend(front, [c, d]);
      PairedLast(HexDigits(front), HexValue(c), HexValue(d));
      HexLast(FromHex(front), HexValue(c), HexValue(d));
      HexDigitOf(c);
      HexDigitOf(d);
    }
  }

  lemma EmptyHex()
    ensures ToHexUpper(FromHex("")) == "" && FromHex("") == []
  {
  }
}
