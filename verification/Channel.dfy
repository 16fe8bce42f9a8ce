/** The handshake side of a communication channel: its sessions, and what it does with the
    handshake packets it receives and when it is told to send one. */
module Channels {
  import opened Wire
  import opened HandshakePackets
  import opened Handshakes

  datatype SessionView = SessionView(
    handshake: HandshakeView,
    localSessionID: UInt16,
    remoteSessionID: UInt16,
    ourSynNonce: UInt32,
    ourSynAckNonce: UInt32,
    ourAckNonce: UInt32,
    theirLastNonce: UInt32)

  type Sessions = map<string, SessionView>

  /** What creating a session comes to: nothing when there is no key, id or address for the
      peer; otherwise a session with an id and random nonces. The directory may still refuse to
      register it, when its address belongs to another session; the caller is not told. */
  datatype Creation =
    | NotCreated
    | Created(registered: bool, localSessionID: UInt16, synNonce: UInt32, synAckNonce: UInt32, ackNonce: UInt32)

  function NewSession(initiator: bool, c: Creation): SessionView
    requires c.Created?
  {
    SessionView(HandshakeView(initiator, 0, false), c.localSessionID, INVALID_SESSION_ID,
                c.synNonce, c.synAckNonce, c.ackNonce, INVALID_NONCE)
  }

  // Receiving

  /** The nonce and id checks of a packet whose step is the expected one. */
  predicate Accepts(s: SessionView, step: Step, rest: Stream) {
    match step
    case SYN => Get16(rest).0 >= FIRST_STATE_ID && Get32(Get16(rest).1).0 != INVALID_NONCE
    case SYN_ACK =>
      && Get16(rest).0 >= FIRST_STATE_ID
      && Get32(Get16(rest).1).0 == s.ourSynNonce
      && Get32(Get32(Get16(rest).1).1).0 != INVALID_NONCE
    case ACK => Get32(rest).0 == s.ourAckNonce
    case NONE => false
  }

  /** What an accepted packet leaves in the session. */
  function Recorded(s: SessionView, step: Step, rest: Stream): SessionView {
    match step
    case SYN => s.(remoteSessionID := Get16(rest).0, theirLastNonce := Get32(Get16(rest).1).0)
    case SYN_ACK => s.(remoteSessionID := Get16(rest).0, theirLastNonce := Get32(Get32(Get16(rest).1).1).0)
    case ACK => s
    case NONE => s
  }

  predicate IsHandshake(multimagic: nat) {
    StepOf(multimagic) != NONE
  }

  predicate SentByInitiator(multimagic: nat) {
    multimagic == MULTIMAGIC_SYN || multimagic == MULTIMAGIC_ACK
  }

  /** A packet for a session: when both sides claim the same role the duel decides and the packet
      is dropped; otherwise it is taken if its step is expected and its checks succeed. */
  function AfterPacket(localID: string, senderID: string, s: SessionView, multimagic: nat, rest: Stream): SessionView {
    var step := StepOf(multimagic);
    if SentByInitiator(multimagic) == s.handshake.initiator then
      if Beats(localID, senderID) then s
      else s.(handshake := s.handshake.(initiator := !s.handshake.initiator))
    else if ExpectedRX(s.handshake) == step && Accepts(s, step, rest) then
      Recorded(s, step, rest).(handshake := AfterRX(s.handshake, step))
    else s
  }

  /** The node has a key of its own, both halves valid. */
  predicate CanRead(local: MaybeKey) {
    local.Has? && local.key.validPublic && local.key.validPrivate
  }

  /** The sessions after a datagram came in that the node could read. */
  function AfterDatagram(localID: string, sessions: Sessions, datagram: seq<Byte>, c: Creation): Sessions {
    var multimagic, body := ReadMagic(datagram), ReadBody(datagram);
    if !IsHandshake(multimagic) || body == [] then sessions
    else AfterBody(localID, sessions, multimagic, body, c)
  }

  function AfterBody(localID: string, sessions: Sessions, multimagic: nat, body: seq<Byte>, c: Creation): Sessions {
    var (raw, rest) := ReadSender(body);
    var senderID := ToHexUpper(raw);
    if |raw| != SENDER_ID_SIZE then sessions
    else AfterSender(localID, sessions, multimagic, senderID, rest, c)
  }

  function AfterSender(localID: string, sessions: Sessions, multimagic: nat, senderID: string, rest: Stream,
                       c: Creation): Sessions {
    if senderID in sessions then
      sessions[senderID := AfterPacket(localID, senderID, sessions[senderID], multimagic, rest)]
    else if multimagic == MULTIMAGIC_SYN && c.Created? then
      var s := AfterPacket(localID, senderID, NewSession(false, c), multimagic, rest);
      WithSession(sessions, senderID, s, c.registered)
    else sessions
  }

  /** A packet that was cut off is refused: a read past the end gives zero. Only an ACK passes when the
      nonce it is compared with is zero. */
  lemma TruncatedPacketsAreRefused(s: SessionView, step: Step, left: seq<Byte>)
    requires Accepts(s, step, Stream(left, true))
    ensures step == SYN ==> |left| >= 6
    ensures step == SYN_ACK ==> |left| >= 10
    ensures step == ACK ==> |left| >= 4 || s.ourAckNonce == 0
    ensures step != NONE
  {
  }

  // Sending

  datatype Sent = Nothing | Packet(h: Handshake)

  /** The packet for the step a session is to send, and nothing when the step and the role do
      not fit. The code's default branch is that of SYN, so an initiator with nothing to send
      sends SYN once more. */
  function PacketFor(localID: string, s: SessionView): Sent {
    var step, initiator := ExpectedTX(s.handshake), s.handshake.initiator;
    if step == SYN_ACK then
      if initiator then Nothing else Packet(SynAck(localID, s.localSessionID, s.theirLastNonce, s.ourSynAckNonce))
    else if !initiator then Nothing
    else if step == ACK then Packet(Ack(localID, s.theirLastNonce))
    else Packet(Syn(localID, s.localSessionID, s.ourSynNonce))
  }

  /** What a session sends when told to, and the session after it. */
  function SendFrom(localID: string, s: SessionView): (Sent, SessionView) {
    if IsDone(s.handshake) then (Nothing, s)
    else
      var sent := PacketFor(localID, s);
      (sent, if sent.Nothing? then s else s.(handshake := AfterTX(s.handshake, ExpectedTX(s.handshake))))
  }

  function WithSession(sessions: Sessions, id: string, s: SessionView, registered: bool): Sessions {
    if registered then sessions[id := s] else sessions
  }

  function AfterSend(localID: string, sessions: Sessions, peerID: string, c: Creation): (Sent, Sessions) {
    if peerID in sessions then
      var (sent, s) := SendFrom(localID, sessions[peerID]);
      (sent, sessions[peerID := s])
    else if c.NotCreated? then (Nothing, sessions)
    else
      var (sent, s) := SendFrom(localID, NewSession(true, c));
      (sent, WithSession(sessions, peerID, s, c.registered))
  }

  /** Nothing else is heard: a datagram that changes any session begins with one of the magics 1, 2
      and 3, carries a body that begins with a sender id of 32 bytes, and comes from a node that has
      a session or sends a SYN to get one. It changes no session but that node's. */
  lemma OnlyHandshakesAreHeard(localID: string, sessions: Sessions, datagram: seq<Byte>, c: Creation)
    ensures var after := AfterDatagram(localID, sessions, datagram, c);
            var (raw, _) := ReadSender(ReadBody(datagram));
            after != sessions ==> (
              && 1 <= ReadMagic(datagram) <= 3 && |raw| == 32
              && (ToHexUpper(raw) in sessions || (ReadMagic(datagram) == 1 && c.Created? && c.registered))
              && after.Keys == sessions.Keys + {ToHexUpper(raw)}
              && forall id :: id in sessions && id != ToHexUpper(raw) ==> after[id] == sessions[id])
  {
    hide AfterPacket, NewSession, GetBytes, Get16, ToHexUpper;
  }

  /** Who speaks when told to: an initiator always, an adherent exactly at counter 1. The initiator
      says ACK at counter 2 and SYN at all others, so also when there is nothing left to say. */
  lemma WhoSpeaks(localID: string, s: SessionView)
    ensures var (sent, after) := SendFrom(localID, s);
            var c := s.handshake.stepCounter;
            && sent == (
                 if s.handshake.initiator then
                   Packet(if c == 2 then Ack(localID, s.theirLastNonce)
                          else Syn(localID, s.localSessionID, s.ourSynNonce))
                 else if c == 1 then
                   Packet(SynAck(localID, s.localSessionID, s.theirLastNonce, s.ourSynAckNonce))
                 else Nothing)
            && after == s.(handshake := after.handshake)
            && after.handshake.initiator == s.handshake.initiator && after.handshake.stepCounter == c
  {
  }

  // The classes

  class CommsSession {
    const handshakeState: HandshakeState
    /** The peer's key: a session is only created with one whose public half is valid. */
    const key: Key := Key(true, false)
    var localSessionID: UInt16
    var remoteSessionID: UInt16
    var ourSynNonce: UInt32
    var ourSynAckNonce: UInt32
    var ourAckNonce: UInt32
    var theirLastNonce: UInt32

    ghost function View(): SessionView
      reads this, handshakeState
    {
      SessionView(handshakeState.View(), localSessionID, remoteSessionID,
                  ourSynNonce, ourSynAckNonce, ourAckNonce, theirLastNonce)
    }

    constructor (initiator: bool, c: Creation)
      requires c.Created?
      ensures View() == NewSession(initiator, c) && fresh(handshakeState)
    {
      var state := new HandshakeState(true);
      handshakeState := state;
      localSessionID, remoteSessionID := c.localSessionID, INVALID_SESSION_ID;
      ourSynNonce, ourSynAckNonce, ourAckNonce := c.synNonce, c.synAckNonce, c.ackNonce;
      theirLastNonce := INVALID_NONCE;
      new;
      state.SetInitiator(initiator);
    }
  }

  class CommsChannel {
    const localID: string
    var sessions: map<string, CommsSession>

    ghost function Objects(): set<object>
      reads this
    {
      (set id | id in sessions :: sessions[id]) + (set id | id in sessions :: sessions[id].handshakeState)
    }

    ghost function View(): Sessions
      reads this, Objects()
    {
      map id | id in sessions :: sessions[id].View()
    }

    /** No two ids share a session. */
    ghost predicate Valid()
      reads this
    {
      && IsNodeId(localID) && |FromHex(localID)| == SENDER_ID_SIZE
      && forall i, j :: i in sessions && j in sessions && i != j ==>
           sessions[i] != sessions[j] && sessions[i].handshakeState != sessions[j].handshakeState
    }

    constructor (id: string)
      requires IsNodeId(id)
      ensures Valid() && localID == id && View() == map[]
    {
      HexRoundTrip(id);
      localID := id;
      sessions := map[];
    }

    method CreateSession(id: string, initiator: bool, c: Creation) returns (session: CommsSession?)
      requires Valid() && id !in sessions
      modifies this`sessions
      ensures Valid()
      ensures c.NotCreated? <==> session == null
      ensures session != null ==>
        session.View() == NewSession(initiator, c) && fresh(session) && fresh(session.handshakeState)
      ensures sessions == if c.Created? && c.registered then old(sessions)[id := session] else old(sessions)
    {
      if c.NotCreated? {
        return null;
      }
      session := new CommsSession(initiator, c);
      if c.registered {
        sessions := sessions[id := session];
      }
    }

    // Receiving

    method ReceiveSyn(state: PacketReadState, session: CommsSession) returns (ok: bool)
      requires state.encStream.Present?
      modifies state, session
      ensures var rest := old(state.encStream.stream);
              && ok == Accepts(old(session.View()), SYN, rest)
              && session.View() == if ok then Recorded(old(session.View()), SYN, rest) else old(session.View())
    {
      state.ReadEncDesiredRemoteSessionID();
      if state.desiredRemoteSessionID < FIRST_STATE_ID {
        return false;
      }
      state.ReadEncRemoteNonce();
      if state.remoteNonce == INVALID_NONCE {
        return false;
      }
      session.theirLastNonce := state.remoteNonce;
      session.remoteSessionID := state.desiredRemoteSessionID;
      return true;
    }

    method ReceiveSynAck(state: PacketReadState, session: CommsSession) returns (ok: bool)
      requires state.encStream.Present?
      modifies state, session
      ensures var rest := old(state.encStream.stream);
              && ok == Accepts(old(session.View()), SYN_ACK, rest)
              && session.View() == if ok then Recorded(old(session.View()), SYN_ACK, rest) else old(session.View())
    {
      state.ReadEncDesiredRemoteSessionID();
      if state.desiredRemoteSessionID < FIRST_STATE_ID {
        return false;
      }
      state.ReadEncReturnNonce();
      if state.returnNonce != session.ourSynNonce {
        return false;
      }
      state.ReadEncRemoteNonce();
      if state.remoteNonce == INVALID_NONCE {
        return false;
      }
      session.theirLastNonce := state.remoteNonce;
      session.remoteSessionID := state.desiredRemoteSessionID;
      return true;
    }

    method ReceiveAck(state: PacketReadState, session: CommsSession) returns (ok: bool)
      requires state.encStream.Present?
      modifies state
      ensures ok == Accepts(session.View(), ACK, old(state.encStream.stream))
      ensures session.View() == old(session.View())
    {
      state.ReadEncReturnNonce();
      return state.returnNonce == session.ourAckNonce;
    }

    /** What is done with a packet once its session is known. */
    method ReceiveForSession(state: PacketReadState, session: CommsSession)
      requires state.encStream.Present?
      modifies state, session, session.handshakeState
      ensures session.View() ==
        AfterPacket(localID, old(state.senderID), old(session.View()),
                    old(state.multimagic), old(state.encStream.stream))
    {
      var remoteWantsToBeInitiator := state.multimagic == MULTIMAGIC_SYN || state.multimagic == MULTIMAGIC_ACK;
      var weWantToBeInitiator := session.handshakeState.mInitiator;
      if remoteWantsToBeInitiator == weWantToBeInitiator {
        var duel := new IDDuel(localID, state.senderID);
        var weWin := duel.Duel();
        if !weWin {
          session.handshakeState.SetInitiator(!weWantToBeInitiator);
        }
        return;
      }
      var step := StepOf(state.multimagic);
      var expected := session.handshakeState.ExpectedStepRX();
      if expected == step {
        var ok := false;
        if state.multimagic == MULTIMAGIC_SYN {
          ok := ReceiveSyn(state, session);
        } else if state.multimagic == MULTIMAGIC_SYNACK {
          ok := ReceiveSynAck(state, session);
        } else if state.multimagic == MULTIMAGIC_ACK {
          ok := ReceiveAck(state, session);
        }
        if ok {
          var _ := session.handshakeState.HandleRX(step);
        }
      }
    }

    method ReceiveForKnown(state: PacketReadState, id: string)
      requires Valid() && state.encStream.Present?
      requires id in sessions && id == state.senderID
      modifies Objects(), state
      ensures Valid()
      ensures View() == old(View())[id :=
        AfterPacket(localID, id, old(View())[id], old(state.multimagic), old(state.encStream.stream))]
    {
      hide AfterPacket, FromHex, IsNodeId;
      ReceiveForSession(state, sessions[id]);
      assert forall i :: i in sessions && i != id ==> sessions[i].View() == old(sessions[i].View());
    }

    method ReceiveForUnknown(state: PacketReadState, id: string, c: Creation)
      requires Valid() && state.encStream.Present?
      requires id !in sessions && id == state.senderID && state.multimagic == MULTIMAGIC_SYN
      modifies this`sessions, state
      ensures Valid()
      ensures c.NotCreated? ==> View() == old(View())
      ensures c.Created? ==>
        View() == WithSession(old(View()), id,
          AfterPacket(localID, id, NewSession(false, c), MULTIMAGIC_SYN, old(state.encStream.stream)), c.registered)
    {
      hide AfterPacket, FromHex, IsNodeId, NewSession;
      var session := CreateSession(id, false, c);
      if session == null {
        return;
      }
      ReceiveForSession(state, session);
      assert forall i :: i in old(sessions) ==> old(sessions)[i].View() == old(sessions[i].View());
      assert View().Keys == WithSession(old(View()), id, session.View(), c.registered).Keys;
    }

    method ReceiveFromSender(state: PacketReadState, c: Creation)
      requires Valid() && state.encStream.Present?
      modifies this, Objects(), state
      ensures Valid()
      ensures View() ==
        AfterSender(localID, old(View()), old(state.multimagic), old(state.senderID), old(state.encStream.stream), c)
    {
      hide AfterPacket, FromHex, IsNodeId, NewSession, WithSession;
      if state.senderID in sessions {
        ReceiveForKnown(state, state.senderID);
      } else if state.multimagic == MULTIMAGIC_SYN {
        ReceiveForUnknown(state, state.senderID, c);
      }
    }

    /** Whether there is a message to read from. */
    method ReceiveEncryptedBody(state: PacketReadState, local: MaybeKey) returns (ok: bool)
      requires state.encStream.Absent? && state.decryptedMessage == []
      modifies state
      ensures var body := GetBytes(old(state.stream)).0;
              && ok == (CanRead(local) && body != [])
              && (ok ==> state.encStream == Present(Stream(body, true)))
      ensures state.multimagic == old(state.multimagic)
    {
      hide GetBytes;
      if local.Has? {
        if !IsValidKey(local.key, false) {
          return false;
        }
        state.ReadProtocolEncryptedMessage();
        state.Decrypt(local.key);
        return |state.decryptedMessage| != 0;
      }
      return false;
    }

    method ReceiveHandshake(state: PacketReadState, local: MaybeKey, c: Creation)
      requires Valid()
      requires state.encStream.Absent? && state.decryptedMessage == []
      modifies this, Objects(), state
      ensures Valid()
      ensures var body := GetBytes(old(state.stream)).0;
              View() == if !CanRead(local) || body == [] then old(View())
                        else AfterBody(localID, old(View()), old(state.multimagic), body, c)
    {
      hide AfterSender, FromHex, IsNodeId, GetBytes, ToHexUpper, CanRead;
      var ok := ReceiveEncryptedBody(state, local);
      if !ok {
        return;
      }
      state.ReadEncSenderID();
      if |state.senderIDRaw| != SENDER_ID_SIZE {
        return;
      }
      assert View() == old(View());
      ReceiveFromSender(state, c);
    }

    /** Only the three handshake packets touch what is modelled here. */
    method ReceivePacketRaw(datagram: seq<Byte>, local: MaybeKey, c: Creation)
      requires Valid()
      modifies this, Objects()
      ensures Valid()
      ensures View() == if CanRead(local) then AfterDatagram(localID, old(View()), datagram, c) else old(View())
    {
      hide AfterBody, FromHex, IsNodeId, GetBytes, Get16, CanRead;
      var state := new PacketReadState(datagram);
      state.ReadMultimagic();
      assert View() == old(View());
      if IsHandshake(state.multimagic) {
        ReceiveHandshake(state, local, c);
      }
    }

    // Sending

    method SendSyn(state: PacketSendState, session: CommsSession)
      requires Valid()
      requires state.datagram == [] && state.unencryptedMessage == []
      modifies state
      ensures state.datagram == Encode(Syn(localID, session.localSessionID, session.ourSynNonce))
    {
      hide Put16, Put32, FromHex, PutBytes, Encode;
      ghost var h := Syn(localID, session.localSessionID, session.ourSynNonce);
      state.WriteMultimagic(MULTIMAGIC_SYN);
      state.WriteEncSenderID(localID);
      state.WriteEncSessionID(session.localSessionID);
      state.WriteEncNonce(session.ourSynNonce);
      FieldSizes(h);
      Assembled(h, state.unencryptedMessage, state.datagram);
      state.Encrypt(Has(session.key));
      state.WriteProtocolEncryptedMessage();
    }

    method SendSynAck(state: PacketSendState, session: CommsSession)
      requires Valid()
      requires state.datagram == [] && state.unencryptedMessage == []
      modifies state
      ensures state.datagram ==
        Encode(SynAck(localID, session.localSessionID, session.theirLastNonce, session.ourSynAckNonce))
    {
      hide Put16, Put32, FromHex, PutBytes, Encode;
      ghost var h := SynAck(localID, session.localSessionID, session.theirLastNonce, session.ourSynAckNonce);
      state.WriteMultimagic(MULTIMAGIC_SYNACK);
      state.WriteEncSenderID(localID);
      state.WriteEncSessionID(session.localSessionID);
      state.WriteEncNonce(session.theirLastNonce);
      state.WriteEncNonce(session.ourSynAckNonce);
      FieldSizes(h);
      Assembled(h, state.unencryptedMessage, state.datagram);
      state.Encrypt(Has(session.key));
      state.WriteProtocolEncryptedMessage();
    }

    method SendAck(state: PacketSendState, session: CommsSession)
      requires Valid()
      requires state.datagram == [] && state.unencryptedMessage == []
      modifies state
      ensures state.datagram == Encode(Ack(localID, session.theirLastNonce))
    {
      hide Put16, Put32, FromHex, PutBytes, Encode;
      ghost var h := Ack(localID, session.theirLastNonce);
      state.WriteMultimagic(MULTIMAGIC_ACK);
      state.WriteEncSenderID(localID);
      state.WriteEncNonce(session.theirLastNonce);
      FieldSizes(h);
      Assembled(h, state.unencryptedMessage, state.datagram);
      state.Encrypt(Has(session.key));
      state.WriteProtocolEncryptedMessage();
    }

    /** Sends the packet a session is to send; no bytes stand for nothing sent. */
    method SendForSession(session: CommsSession) returns (datagram: seq<Byte>)
      requires Valid()
      modifies session.handshakeState
      ensures session.View() == SendFrom(localID, old(session.View())).1
      ensures datagram == match SendFrom(localID, old(session.View())).0
                          case Nothing => []
                          case Packet(h) => Encode(h)
    {
      hide FromHex, IsNodeId, Encode;
      datagram := [];
      var established := session.handshakeState.Done();
      if established {
        return;
      }
      var state := new PacketSendState();
      var sendStep := session.handshakeState.ExpectedStepTX();
      var isInitiator := session.handshakeState.mInitiator;
      match sendStep {
        case SYN_ACK =>
          if isInitiator {
            return;
          }
          SendSynAck(state, session);
        case ACK =>
          if !isInitiator {
            return;
          }
          SendAck(state, session);
        case _ =>
          if !isInitiator {
            return;
          }
          SendSyn(state, session);
      }
      datagram := state.datagram;
      var _ := session.handshakeState.HandleTX(sendStep);
    }

    method SendHandshake(peerID: string, c: Creation) returns (datagram: seq<Byte>)
      requires Valid()
      modifies this`sessions, Objects()
      ensures Valid()
      ensures var (sent, after) := AfterSend(localID, old(View()), peerID, c);
              View() == after && datagram == match sent case Nothing => [] case Packet(h) => Encode(h)
    {
      hide FromHex, IsNodeId, Encode, SendFrom, NewSession;
      if peerID in sessions {
        datagram := SendToKnown(peerID);
      } else {
        datagram := SendToUnknown(peerID, c);
      }
    }

    method SendToKnown(peerID: string) returns (datagram: seq<Byte>)
      requires Valid() && peerID in sessions
      modifies Objects()
      ensures Valid()
      ensures View() == old(View())[peerID := SendFrom(localID, old(View())[peerID]).1]
      ensures datagram == match SendFrom(localID, old(View())[peerID]).0
                          case Nothing => []
                          case Packet(h) => Encode(h)
    {
      hide FromHex, IsNodeId, Encode, SendFrom;
      datagram := SendForSession(sessions[peerID]);
      assert forall i :: i in sessions && i != peerID ==> sessions[i].View() == old(sessions[i].View());
    }

    method SendToUnknown(peerID: string, c: Creation) returns (datagram: seq<Byte>)
      requires Valid() && peerID !in sessions
      modifies this`sessions
      ensures Valid()
      ensures c.NotCreated? ==> View() == old(View()) && datagram == []
      ensures c.Created? ==>
        View() == WithSession(old(View()), peerID, SendFrom(localID, NewSession(true, c)).1, c.registered)
      ensures c.Created? ==> datagram == match SendFrom(localID, NewSession(true, c)).0
                                         case Nothing => []
                                         case Packet(h) => Encode(h)
    {
      hide FromHex, IsNodeId, Encode, SendFrom, NewSession;
      if c.NotCreated? {
        var _ := CreateSession(peerID, true, c);
        return [];
      }
      if c.registered {
        datagram := SendFromListed(peerID, c);
      } else {
        datagram := SendFromRefused(peerID, c);
      }
    }

    method SendFromListed(peerID: string, c: Creation) returns (datagram: seq<Byte>)
      requires Valid() && peerID !in sessions && c.Created? && c.registered
      modifies this`sessions
      ensures Valid()
      ensures View() == old(View())[peerID := SendFrom(localID, NewSession(true, c)).1]
      ensures datagram == match SendFrom(localID, NewSession(true, c)).0
                          case Nothing => []
                          case Packet(h) => Encode(h)
    {
      hide FromHex, IsNodeId, Encode, SendFrom, NewSession;
      var session := CreateSession(peerID, true, c);
      datagram := SendForSession(session);
      assert forall i :: i in old(sessions) ==> old(sessions)[i].View() == old(sessions[i].View());
    }

    method SendFromRefused(peerID: string, c: Creation) returns (datagram: seq<Byte>)
      requires Valid() && peerID !in sessions && c.Created? && !c.registered
      modifies this`sessions
      ensures Valid()
      ensures View() == old(View())
      ensures datagram == match SendFrom(localID, NewSession(true, c)).0
                          case Nothing => []
                          case Packet(h) => Encode(h)
    {
      hide FromHex, IsNodeId, Encode, SendFrom, NewSession;
      var session := CreateSession(peerID, true, c);
      datagram := SendForSession(session);
    }
  }

  /** The pieces the sender writes, in order, are the packet. */
  lemma Assembled(h: Handshake, message: seq<Byte>, datagram: seq<Byte>)
    requires |FromHex(h.sender)| == SENDER_ID_SIZE
    requires datagram == [] + Put16(MagicOf(h))
    requires message == match h
                        case Syn(_, s, n) => [] + PutBytes(FromHex(h.sender)) + Put16(s) + Put32(n)
                        case SynAck(_, s, r, n) => [] + PutBytes(FromHex(h.sender)) + Put16(s) + Put32(r) + Put32(n)
                        case Ack(_, r) => [] + PutBytes(FromHex(h.sender)) + Put32(r)
    ensures message == Body(h)
    ensures |Body(h)| < MAX_ARRAY && datagram + PutBytes(Body(h)) == Encode(h)
  {
    hide Put16, Put32, FromHex, PutBytes;
    FieldSizes(h);
    match h {
      case Syn(_, s, n) =>
      case SynAck(_, s, r, n) =>
        assert message == PutBytes(FromHex(h.sender)) + (Put16(s) + Put32(r) + Put32(n));
      case Ack(_, r) =>
    }
  }
}
