/** The three handshake packets: what the sender writes and what the receiver reads. */
module HandshakePackets {
  import opened Wire

  const MULTIMAGIC_IDLE: UInt16 := 0
  const MULTIMAGIC_SYN: UInt16 := 1
  const MULTIMAGIC_SYNACK: UInt16 := 2
  const MULTIMAGIC_ACK: UInt16 := 3
  /** The first session id that is no packet magic. */
  const FIRST_STATE_ID: UInt16 := 4

  const INVALID_SESSION_ID: UInt16 := 0
  const INVALID_NONCE: UInt32 := 0
  const SENDER_ID_SIZE: nat := 32

  /** The size from which the length of a byte array no longer fits its prefix. */
  const MAX_ARRAY: nat := 0xFFFF_FFFE

  datatype Handshake =
    | Syn(sender: string, sessionId: UInt16, nonce: UInt32)
    | SynAck(sender: string, sessionId: UInt16, returnNonce: UInt32, nonce: UInt32)
    | Ack(sender: string, returnNonce: UInt32)

  function MagicOf(h: Handshake): UInt16 {
    match h
    case Syn(_, _, _) => MULTIMAGIC_SYN
    case SynAck(_, _, _, _) => MULTIMAGIC_SYNACK
    case Ack(_, _) => MULTIMAGIC_ACK
  }

  function Fields(h: Handshake): seq<Byte> {
    match h
    case Syn(_, sessionId, nonce) => Put16(sessionId) + Put32(nonce)
    case SynAck(_, sessionId, returnNonce, nonce) => Put16(sessionId) + Put32(returnNonce) + Put32(nonce)
    case Ack(_, returnNonce) => Put32(returnNonce)
  }

  function Body(h: Handshake): seq<Byte>
    requires |FromHex(h.sender)| < MAX_ARRAY
  {
    PutBytes(FromHex(h.sender)) + Fields(h)
  }

  /** The datagram of a handshake packet. */
  function Encode(h: Handshake): seq<Byte>
    requires |FromHex(h.sender)| < MAX_ARRAY - 100
  {
    Put16(MagicOf(h)) + PutBytes(Body(h))
  }

  /** A key pair, as far as it is asked for: which of its halves are valid. */
  datatype Key = Key(validPublic: bool, validPrivate: bool)

  predicate IsValidKey(key: Key, onlyPublic: bool) {
    if onlyPublic then key.validPublic else key.validPublic && key.validPrivate
  }

  datatype MaybeKey = NoKey | Has(key: Key)

  /** A byte array that was never given a value is null, and is written with the length 0xFFFFFFFF. */
  datatype ByteArray = NullArray | Bytes(b: seq<Byte>)

  function PutArray(a: ByteArray): seq<Byte>
    requires a.Bytes? ==> |a.b| < 0xFFFF_FFFF
  {
    if a.NullArray? then Put32(0xFFFF_FFFF) else PutBytes(a.b)
  }

  lemma NullArrayBytes()
    ensures PutArray(NullArray) == [255, 255, 255, 255]
  {
    assert 0xFFFF_FFFF / 0x1_0000 == 0xFFFF == 0xFFFF_FFFF % 0x1_0000;
  }

  class PacketSendState {
    var datagram: seq<Byte>
    var unencryptedMessage: seq<Byte>
    var encryptedMessage: ByteArray

    constructor ()
      ensures datagram == [] && unencryptedMessage == [] && encryptedMessage == NullArray
    {
      datagram, unencryptedMessage, encryptedMessage := [], [], NullArray;
    }

    method WriteMultimagic(multimagic: UInt16)
      modifies this`datagram
      ensures datagram == old(datagram) + Put16(multimagic)
    {
      datagram := datagram + Put16(multimagic);
    }

    method WriteEncSenderID(senderID: string)
      requires |FromHex(senderID)| < MAX_ARRAY
      modifies this`unencryptedMessage
      ensures unencryptedMessage == old(unencryptedMessage) + PutBytes(FromHex(senderID))
    {
      var raw := FromHex(senderID);
      unencryptedMessage := unencryptedMessage + PutBytes(raw);
    }

    method WriteEncNonce(nonce: UInt32)
      modifies this`unencryptedMessage
      ensures unencryptedMessage == old(unencryptedMessage) + Put32(nonce)
    {
      unencryptedMessage := unencryptedMessage + Put32(nonce);
    }

    method WriteEncSessionID(sessionID: UInt16)
      modifies this`unencryptedMessage
      ensures unencryptedMessage == old(unencryptedMessage) + Put16(sessionID)
    {
      unencryptedMessage := unencryptedMessage + Put16(sessionID);
    }

    /** Encryption is compiled out: the message is taken over as it is, if the session has a valid key
        and there is a message. */
    method Encrypt(key: MaybeKey)
      modifies this`encryptedMessage
      ensures encryptedMessage ==
        if key.NoKey? || !IsValidKey(key.key, true) || |unencryptedMessage| < 1 then old(encryptedMessage)
        else Bytes(unencryptedMessage)
    {
      if key.NoKey? {
        return;
      }
      if !IsValidKey(key.key, true) {
        return;
      }
      if |unencryptedMessage| < 1 {
        return;
      }
      encryptedMessage := Bytes(unencryptedMessage);
    }

    method WriteProtocolEncryptedMessage()
      requires encryptedMessage.Bytes? ==> |encryptedMessage.b| < MAX_ARRAY
      modifies this`datagram
      ensures datagram == old(datagram) + PutArray(encryptedMessage)
      ensures encryptedMessage.NullArray? ==> datagram == old(datagram) + [255, 255, 255, 255]
    {
      NullArrayBytes();
      hide PutArray, Put32;
      datagram := datagram + PutArray(encryptedMessage);
    }
  }

  datatype EncStream = Absent | Present(stream: Stream)

  class PacketReadState {
    var stream: Stream
    var multimagic: UInt16
    var encryptedMessage: seq<Byte>
    var decryptedMessage: seq<Byte>
    var encStream: EncStream
    var senderIDRaw: seq<Byte>
    var senderID: string
    var remoteNonce: UInt32
    var returnNonce: UInt32
    var desiredRemoteSessionID: UInt16

    constructor (datagram: seq<Byte>)
      ensures stream == Stream(datagram, true) && multimagic == 0
      ensures encryptedMessage == [] && decryptedMessage == [] && encStream == Absent
      ensures senderIDRaw == [] && senderID == ""
      ensures remoteNonce == INVALID_NONCE && returnNonce == INVALID_NONCE &&
          desiredRemoteSessionID == INVALID_SESSION_ID
    {
      stream, multimagic := Stream(datagram, true), 0;
      encryptedMessage, decryptedMessage, encStream := [], [], Absent;
      senderIDRaw, senderID := [], "";
      remoteNonce, returnNonce, desiredRemoteSessionID := INVALID_NONCE, INVALID_NONCE, INVALID_SESSION_ID;
    }

    method ReadMultimagic()
      modifies this`stream, this`multimagic
      ensures (multimagic, stream) == Get16(old(stream))
    {
      var (value, rest) := Get16(stream);
      multimagic, stream := value, rest;
    }

    method ReadProtocolEncryptedMessage()
      modifies this`stream, this`encryptedMessage
      ensures (encryptedMessage, stream) == GetBytes(old(stream))
    {
      var (value, rest) := GetBytes(stream);
      encryptedMessage, stream := value, rest;
    }

    /** Decryption is compiled out as well. Without a valid key, or on an empty message, no stream is
        opened. */
    method Decrypt(key: Key)
      modifies this`decryptedMessage, this`encStream
      ensures !IsValidKey(key, true) || encryptedMessage == [] ==>
        decryptedMessage == old(decryptedMessage) && encStream == old(encStream)
      ensures IsValidKey(key, true) && encryptedMessage != [] ==>
        decryptedMessage == encryptedMessage && encStream == Present(Stream(encryptedMessage, true))
    {
      if IsValidKey(key, true) && |encryptedMessage| > 0 {
        decryptedMessage := encryptedMessage;
        if |decryptedMessage| > 0 {
          encStream := Present(Stream(decryptedMessage, true));
        }
      }
    }

    method ReadEncSenderID()
      modifies this`encStream, this`senderIDRaw, this`senderID
      ensures old(encStream).Absent? ==>
        encStream == Absent && senderIDRaw == old(senderIDRaw) && senderID == old(senderID)
      ensures old(encStream).Present? ==>
        (senderIDRaw, encStream) == (GetBytes(old(encStream).stream).0, Present(GetBytes(old(encStream).stream).1)) &&
        senderID == ToHexUpper(senderIDRaw)
    {
      if encStream.Present? {
        var (value, rest) := GetBytes(encStream.stream);
        senderIDRaw, encStream := value, Present(rest);
        senderID := ToHexUpper(senderIDRaw);
      }
    }

    method ReadEncRemoteNonce()
      modifies this`encStream, this`remoteNonce
      ensures old(encStream).Absent? ==> encStream == Absent && remoteNonce == old(remoteNonce)
      ensures old(encStream).Present? ==>
        (remoteNonce, encStream) == (Get32(old(encStream).stream).0, Present(Get32(old(encStream).stream).1))
    {
      if encStream.Present? {
        var (value, rest) := Get32(encStream.stream);
        remoteNonce, encStream := value, Present(rest);
      }
    }

    method ReadEncReturnNonce()
      modifies this`encStream, this`returnNonce
      ensures old(encStream).Absent? ==> encStream == Absent && returnNonce == old(returnNonce)
      ensures old(encStream).Present? ==>
        (returnNonce, encStream) == (Get32(old(encStream).stream).0, Present(Get32(old(encStream).stream).1))
    {
      if encStream.Present? {
        var (value, rest) := Get32(encStream.stream);
        returnNonce, encStream := value, Present(rest);
      }
    }

    method ReadEncDesiredRemoteSessionID()
      modifies this`encStream, this`desiredRemoteSessionID
      ensures old(encStream).Absent? ==> encStream == Absent && desiredRemoteSessionID == old(desiredRemoteSessionID)
      ensures old(encStream).Present? ==>
        (desiredRemoteSessionID, encStream) == (Get16(old(encStream).stream).0, Present(Get16(old(encStream).stream).1))
    {
      if encStream.Present? {
        var (value, rest) := Get16(encStream.stream);
        desiredRemoteSessionID, encStream := value, Present(rest);
      }
    }
  }

  // What a receiver gets out of a datagram

  function ReadMagic(datagram: seq<Byte>): UInt16 {
    Get16(Stream(datagram, true)).0
  }

  function ReadBody(datagram: seq<Byte>): seq<Byte> {
    GetBytes(Get16(Stream(datagram, true)).1).0
  }

  function ReadSender(body: seq<Byte>): (seq<Byte>, Stream) {
    GetBytes(Stream(body, true))
  }

  /** The wire round trip, for all values: from the datagram of a handshake packet a receiver
      reads the magic and the 32-byte sender id that were sent, and then, field by field, the
      session id and nonces. */
  lemma HandshakeRoundTrip(h: Handshake)
    requires IsNodeId(h.sender)
    ensures |FromHex(h.sender)| == SENDER_ID_SIZE
    ensures ReadMagic(Encode(h)) == MagicOf(h) && ReadBody(Encode(h)) == Body(h) != []
    ensures var (raw, rest) := ReadSender(Body(h));
            && raw == FromHex(h.sender) && ToHexUpper(raw) == h.sender
            && match h
               case Syn(_, sessionId, nonce) =>
                 Get16(rest).0 == sessionId && Get32(Get16(rest).1).0 == nonce
               case SynAck(_, sessionId, returnNonce, nonce) =>
                 Get16(rest).0 == sessionId && Get32(Get16(rest).1).0 == returnNonce &&
                 Get32(Get32(Get16(rest).1).1).0 == nonce
               case Ack(_, returnNonce) => Get32(rest).0 == returnNonce
  {
    hide Get16, Get32, Put16, Put32, GetBytes, FromHex, ToHexUpper, IsUpperHex;
    HexRoundTrip(h.sender);
    FieldSizes(h);
    Get16Put16(MagicOf(h), PutBytes(Body(h)));
    GetBytesPutBytes(Body(h), []);
    assert PutBytes(Body(h)) + [] == PutBytes(Body(h));
    GetBytesPutBytes(FromHex(h.sender), Fields(h));
    FieldsReadBack(h);
    hide PutBytes, Fields;
  }

  /** The session id in two bytes and the nonces in four, the most significant byte first. */
  lemma FieldsByPlace(h: Handshake)
    ensures var f := Fields(h);
            match h
            case Syn(_, sessionId, nonce) =>
              |f| == 6 && BigEndian(f[..2]) == sessionId && BigEndian(f[2..]) == nonce
            case SynAck(_, sessionId, returnNonce, nonce) =>
              |f| == 10 && BigEndian(f[..2]) == sessionId && BigEndian(f[2..6]) == returnNonce &&
              BigEndian(f[6..]) == nonce
            case Ack(_, returnNonce) => |f| == 4 && BigEndian(f) == returnNonce
  {
    hide Put16, Put32, BigEndian;
    var f := Fields(h);
    match h
    case Syn(_, sessionId, nonce) =>
      Put16IsBigEndian(sessionId);
      Put32IsBigEndian(nonce);
      assert f[..2] == Put16(sessionId) && f[2..] == Put32(nonce);
    case SynAck(_, sessionId, returnNonce, nonce) =>
      Put16IsBigEndian(sessionId);
      Put32IsBigEndian(returnNonce);
      Put32IsBigEndian(nonce);
      assert f[..2] == Put16(sessionId) && f[2..6] == Put32(returnNonce) && f[6..] == Put32(nonce);
    case Ack(_, returnNonce) =>
      Put32IsBigEndian(returnNonce);
  }

  lemma Pieces(a: seq<Byte>, b: seq<Byte>, c: seq<Byte>, d: seq<Byte>, e: seq<Byte>)
    requires |a| == 2 && |b| == |c| == 4 && |d| == 32
    ensures var s := a + (b + (c + d + e));
            |s| == 42 + |e| && s[..2] == a && s[2..6] == b && s[6..10] == c && s[10..42] == d && s[42..] == e
  {
  }

  /** The bytes on the wire: the magic in two bytes, the length of the rest in four, the length of the
      id in four, the id itself, and then the fields. */
  lemma HandshakeLayout(h: Handshake)
    requires IsNodeId(h.sender)
    ensures |FromHex(h.sender)| == 32
    ensures var d := Encode(h);
            && |d| == 42 + |Fields(h)| && d[10..42] == FromHex(h.sender) && d[42..] == Fields(h)
            && BigEndian(d[..2]) == (match h case Syn(_, _, _) => 1 case SynAck(_, _, _, _) => 2 case Ack(_, _) => 3)
            && BigEndian(d[2..6]) == |d| - 6 && BigEndian(d[6..10]) == 32
  {
    HexRoundTrip(h.sender);
    FieldSizes(h);
    Put16IsBigEndian(MagicOf(h));
    Put32IsBigEndian(|Body(h)|);
    Put32IsBigEndian(32);
    hide FromHex, Put16, Put32, BigEndian, IsNodeId, Fields;
    Pieces(Put16(MagicOf(h)), Put32(|Body(h)|), Put32(32), FromHex(h.sender), Fields(h));
    assert Encode(h) == Put16(MagicOf(h)) + (Put32(|Body(h)|) + (Put32(32) + FromHex(h.sender) + Fields(h)));
  }

  lemma FieldSizes(h: Handshake)
    ensures 0 < |Fields(h)| <= 10
    ensures |FromHex(h.sender)| < MAX_ARRAY - 100 ==> Body(h) != [] && |Body(h)| < MAX_ARRAY
  {
    assert forall x: UInt16 :: |Put16(x)| == 2;
    assert forall x: UInt32 :: |Put32(x)| == 4;
    hide Put16, Put32;
  }

  lemma FieldsReadBack(h: Handshake)
    ensures var rest := Stream(Fields(h), true);
            match h
            case Syn(_, sessionId, nonce) =>
              Get16(rest).0 == sessionId && Get32(Get16(rest).1).0 == nonce
            case SynAck(_, sessionId, returnNonce, nonce) =>
              Get16(rest).0 == sessionId && Get32(Get16(rest).1).0 == returnNonce &&
              Get32(Get32(Get16(rest).1).1).0 == nonce
            case Ack(_, returnNonce) => Get32(rest).0 == returnNonce
  {
    hide Get16, Get32, Put16, Put32;
    match h
    case Syn(_, sessionId, nonce) =>
      assert Put32(nonce) + [] == Put32(nonce);
      Get16Put16(sessionId, Put32(nonce));
      Get32Put32(nonce, []);
    case SynAck(_, sessionId, returnNonce, nonce) =>
      assert Fields(h) == Put16(sessionId) + (Put32(returnNonce) + (Put32(nonce) + []));
      Get16Put16(sessionId, Put32(returnNonce) + (Put32(nonce) + []));
      Get32Put32(returnNonce, Put32(nonce) + []);
      Get32Put32(nonce, []);
    case Ack(_, returnNonce) =>
      assert Put32(returnNonce) + [] == Put32(returnNonce);
      Get32Put32(returnNonce, []);
  }
}
