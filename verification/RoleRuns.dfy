/** Two nodes that may both want to begin the handshake, over a network that loses, duplicates
    and reorders their packets, while each of them also hears and writes to other nodes. */
module RoleRuns {
  import opened Wire
  import opened HandshakePackets
  import opened Handshakes
  import opened Channels

  /** What a node knows about its peer. */
  datatype Peer = NoSession | With(s: SessionView)

  function PeerIn(sessions: Sessions, id: string): Peer {
    if id in sessions then With(sessions[id]) else NoSession
  }

  function SenderOf(datagram: seq<Byte>): string {
    ToHexUpper(ReadSender(ReadBody(datagram)).0)
  }

  /** Two nodes, named by their ids, and every handshake packet either has ever sent to the other. */
  datatype World = World(larger: Sessions, smaller: Sessions, toLarger: set<Handshake>, toSmaller: set<Handshake>)

  datatype Event =
    | LargerSends(peerID: string, c: Creation)
    | SmallerSends(peerID: string, c: Creation)
    | LargerReceives(h: Handshake, c: Creation)
    | SmallerReceives(h: Handshake, c: Creation)
    | LargerHears(datagram: seq<Byte>, c: Creation)
    | SmallerHears(datagram: seq<Byte>, c: Creation)

  /** A packet once sent may arrive any number of times, at any time or never; any other datagram
      may come from anyone, as long as it does not bear the peer's name. A session may be created
      or not, and listed or not. */
  predicate Enabled(l: string, s: string, w: World, e: Event) {
    match e
    case LargerReceives(h, _) => h in w.toLarger
    case SmallerReceives(h, _) => h in w.toSmaller
    case LargerHears(d, _) => SenderOf(d) != s
    case SmallerHears(d, _) => SenderOf(d) != l
    case _ => true
  }

  function WithSent(net: set<Handshake>, sent: Sent): set<Handshake> {
    match sent
    case Nothing => net
    case Packet(h) => net + {h}
  }

  function Next(l: string, s: string, w: World, e: Event): World
    requires IsNodeId(l) && IsNodeId(s)
    requires forall h :: h in w.toLarger + w.toSmaller ==> IsNodeId(h.sender)
    requires Enabled(l, s, w, e)
  {
    match e
    case LargerSends(peerID, c) =>
      var (sent, after) := AfterSend(l, w.larger, peerID, c);
      w.(larger := after, toSmaller := if peerID == s then WithSent(w.toSmaller, sent) else w.toSmaller)
    case SmallerSends(peerID, c) =>
      var (sent, after) := AfterSend(s, w.smaller, peerID, c);
      w.(smaller := after, toLarger := if peerID == l then WithSent(w.toLarger, sent) else w.toLarger)
    case LargerReceives(h, c) =>
      HandshakeRoundTrip(h);
      w.(larger := AfterDatagram(l, w.larger, Encode(h), c))
    case SmallerReceives(h, c) =>
      HandshakeRoundTrip(h);
      w.(smaller := AfterDatagram(s, w.smaller, Encode(h), c))
    case LargerHears(d, c) => w.(larger := AfterDatagram(l, w.larger, d, c))
    case SmallerHears(d, c) => w.(smaller := AfterDatagram(s, w.smaller, d, c))
  }

  // One peer at a time

  /** A handshake packet with its fields in the clear, for the session of its sender. */
  predicate Agrees(s: SessionView, h: Handshake) {
    match h
    case Syn(_, sessionId, nonce) => sessionId >= 4 && nonce != 0
    case SynAck(_, sessionId, returnNonce, nonce) => sessionId >= 4 && returnNonce == s.ourSynNonce && nonce != 0
    case Ack(_, returnNonce) => returnNonce == s.ourAckNonce
  }

  function Noted(s: SessionView, h: Handshake): SessionView {
    match h
    case Syn(_, sessionId, nonce) => s.(remoteSessionID := sessionId, theirLastNonce := nonce)
    case SynAck(_, sessionId, _, nonce) => s.(remoteSessionID := sessionId, theirLastNonce := nonce)
    case Ack(_, _) => s
  }

  function StepFor(h: Handshake): Step {
    match h
    case Syn(_, _, _) => SYN
    case SynAck(_, _, _, _) => SYN_ACK
    case Ack(_, _) => ACK
  }

  function Taken(localID: string, s: SessionView, h: Handshake): SessionView {
    if !h.SynAck? == s.handshake.initiator then
      if Beats(localID, h.sender) then s
      else s.(handshake := s.handshake.(initiator := !s.handshake.initiator))
    else if ExpectedRX(s.handshake) == StepFor(h) && Agrees(s, h) then
      Noted(s, h).(handshake := AfterRX(s.handshake, StepFor(h)))
    else s
  }

  function Arrived(localID: string, p: Peer, h: Handshake, c: Creation): Peer {
    match p
    case With(s) => With(Taken(localID, s, h))
    case NoSession =>
      if h.Syn? && c.Created? && c.registered then With(Taken(localID, NewSession(false, c), h)) else NoSession
  }

  function Spoke(localID: string, p: Peer, c: Creation): (Sent, Peer) {
    match p
    case With(s) => var (sent, t) := SendFrom(localID, s); (sent, With(t))
    case NoSession =>
      if c.NotCreated? then (Nothing, NoSession)
      else var (sent, t) := SendFrom(localID, NewSession(true, c)); (sent, if c.registered then With(t) else NoSession)
  }

  /** Exactly which packets take a session one step further, and which make it change its role. */
  lemma TakenExactly(localID: string, s: SessionView, h: Handshake)
    ensures var v, w := s.handshake, Taken(localID, s, h).handshake;
            && w.stepCounter ==
               (v.stepCounter +
                if match h
                   case Syn(_, sessionId, nonce) =>
                     !v.initiator && v.stepCounter == 0 && sessionId >= 4 && nonce != 0
                   case SynAck(_, sessionId, returnNonce, nonce) =>
                     v.initiator && v.stepCounter == 1 && sessionId >= 4 && returnNonce == s.ourSynNonce && nonce != 0
                   case Ack(_, returnNonce) =>
                     && !v.initiator && (v.stepCounter == 2 || (v.stepCounter == 1 && v.atLeastOneSend))
                     && returnNonce == s.ourAckNonce
                then 1 else 0)
            && (w.initiator != v.initiator <==>
                  (if h.SynAck? then !v.initiator else v.initiator) && !ComesAfter(localID, h.sender))
  {
    FirstDifferenceDecides(localID, h.sender);
    hide Beats, ComesAfter;
  }

  /** The exchange of SYN, SYN-ACK and ACK, step by step: a new adherent takes the SYN of a new
      initiator and answers; an initiator at counter 1 with the same nonce takes the answer and
      acknowledges it; and the adherent takes that if and only if the nonce of its SYN-ACK happens to
      be that of its ACK. */
  lemma AckIsTakenExactly(a: string, b: string, c: Creation, d: Creation, initiator: SessionView)
    requires c.Created? && c.localSessionID >= 4 && c.synAckNonce != 0
    requires d.Created? && d.localSessionID >= 4 && d.synNonce != 0
    requires initiator.handshake.initiator && initiator.handshake.stepCounter == 1
    requires initiator.ourSynNonce == d.synNonce
    ensures var (syn, _) := SendFrom(b, NewSession(true, d));
            && syn == Packet(Syn(b, d.localSessionID, d.synNonce))
            && var taken := Taken(a, NewSession(false, c), syn.h);
            && taken.handshake.stepCounter == 1
            && taken.remoteSessionID == d.localSessionID && taken.theirLastNonce == d.synNonce
            && var (answer, answered) := SendFrom(a, taken);
            && answer == Packet(SynAck(a, c.localSessionID, d.synNonce, c.synAckNonce))
            && var met := Taken(b, initiator, answer.h);
            && met.handshake.stepCounter == 2 && met.remoteSessionID == c.localSessionID
            && var (ack, _) := SendFrom(b, met);
            && ack == Packet(Ack(b, c.synAckNonce))
            && Taken(a, answered, ack.h).handshake.stepCounter == if c.synAckNonce == c.ackNonce then 2 else 1
  {
    hide Beats;
  }

  lemma ChecksFromTheWire(s: SessionView, h: Handshake)
    requires IsNodeId(h.sender)
    ensures |FromHex(h.sender)| == SENDER_ID_SIZE
    ensures var rest := ReadSender(Body(h)).1;
            && StepOf(MagicOf(h)) == StepFor(h) && SentByInitiator(MagicOf(h)) == !h.SynAck?
            && (Accepts(s, StepFor(h), rest) <==> Agrees(s, h))
            && Recorded(s, StepFor(h), rest) == Noted(s, h)
  {
    HandshakeRoundTrip(h);
    hide Get16, Get32, Put16, Put32, GetBytes, FromHex, ToHexUpper, IsNodeId, Body, Encode, ReadSender;
  }

  lemma TakenFromTheWire(localID: string, s: SessionView, h: Handshake)
    requires IsNodeId(h.sender)
    ensures |FromHex(h.sender)| == SENDER_ID_SIZE
    ensures AfterPacket(localID, h.sender, s, MagicOf(h), ReadSender(Body(h)).1) == Taken(localID, s, h)
  {
    ChecksFromTheWire(s, h);
    hide FromHex, IsNodeId, Body, ReadSender, Accepts, Agrees, Recorded, Noted, StepOf, StepFor, SentByInitiator,
         MagicOf, ExpectedRX, AfterRX, Beats;
  }

  /** A datagram that carries a handshake packet does to the sender's session what the packet says
      and to no other. */
  lemma ArrivalOnTheWire(localID: string, sessions: Sessions, h: Handshake, c: Creation)
    requires IsNodeId(h.sender)
    ensures |FromHex(h.sender)| == SENDER_ID_SIZE
    ensures PeerIn(AfterDatagram(localID, sessions, Encode(h), c), h.sender) ==
            Arrived(localID, PeerIn(sessions, h.sender), h, c)
  {
    HandshakeRoundTrip(h);
    assert IsHandshake(MagicOf(h)) && (MagicOf(h) == MULTIMAGIC_SYN <==> h.Syn?);
    hide FromHex, ToHexUpper, IsNodeId, Body, Encode, ReadSender, AfterPacket, Taken, ReadMagic, ReadBody,
        NewSession, MagicOf;
    assert AfterDatagram(localID, sessions, Encode(h), c) ==
           AfterSender(localID, sessions, MagicOf(h), h.sender, ReadSender(Body(h)).1, c);
    hide AfterDatagram, AfterBody;
    if h.sender in sessions {
      TakenFromTheWire(localID, sessions[h.sender], h);
    } else if c.Created? {
      TakenFromTheWire(localID, NewSession(false, c), h);
    }
  }

  /** A datagram touches only the session of the node it names as its sender. */
  lemma OthersDoNotMatter(localID: string, sessions: Sessions, datagram: seq<Byte>, c: Creation, peerID: string)
    requires SenderOf(datagram) != peerID
    ensures PeerIn(AfterDatagram(localID, sessions, datagram, c), peerID) == PeerIn(sessions, peerID)
  {
    hide GetBytes, Get16, ToHexUpper, AfterPacket, NewSession;
  }

  lemma SpeakingOf(localID: string, sessions: Sessions, peerID: string, c: Creation, id: string)
    ensures var (sent, after) := AfterSend(localID, sessions, peerID, c);
            && (id != peerID ==> PeerIn(after, id) == PeerIn(sessions, id))
            && (id == peerID ==> (sent, PeerIn(after, id)) == Spoke(localID, PeerIn(sessions, id), c))
  {
    hide SendFrom, NewSession;
  }

  // What every reachable world keeps

  /** A session's packets: a SYN or SYN-ACK with its own id and nonces, never an ACK. */
  predicate IsFrom(h: Handshake, id: string, s: SessionView) {
    match h
    case Syn(sender, sessionId, nonce) => sender == id && sessionId == s.localSessionID && nonce == s.ourSynNonce
    case SynAck(sender, sessionId, _, nonce) => sender == id && sessionId == s.localSessionID &&
        nonce == s.ourSynAckNonce
    case Ack(_, _) => false
  }

  /** The initiator is still at the start; the adherent has got no further than the SYN. Who is
      at the start knows nothing of its peer. */
  predicate IsEarly(s: SessionView) {
    && s.handshake.stepCounter <= (if s.handshake.initiator then 0 else 1)
    && (s.handshake.stepCounter == 0 ==> s.remoteSessionID == 0 && s.theirLastNonce == 0)
    && (s.handshake.stepCounter == 1 ==> s.remoteSessionID >= 4 && s.theirLastNonce != 0)
  }

  /** An adherent that took a SYN holds the id and the nonce its peer really chose. */
  predicate KnowsPeer(s: SessionView, peer: Peer) {
    s.handshake.stepCounter == 1 ==>
      peer.With? && s.remoteSessionID == peer.s.localSessionID && s.theirLastNonce == peer.s.ourSynNonce
  }

  /** Or at least those of a SYN its peer did send. */
  predicate TookSyn(s: SessionView, peerID: string, net: set<Handshake>) {
    s.handshake.stepCounter == 1 ==> Syn(peerID, s.remoteSessionID, s.theirLastNonce) in net
  }

  predicate Initiates(p: Peer) {
    p.With? && p.s.handshake.initiator
  }

  predicate Adheres(p: Peer) {
    p.With? && !p.s.handshake.initiator
  }

  /** The packets to the smaller node all speak for the role the larger one has now. */
  predicate Sound(l: string, s: string, lp: Peer, sp: Peer, toLarger: set<Handshake>, toSmaller: set<Handshake>) {
    && (forall h :: h in toSmaller ==> lp.With? && IsFrom(h, l, lp.s) && (h.Syn? <==> Initiates(lp)))
    && (forall h :: h in toLarger ==> h.sender == s && !h.Ack?)
    && (lp.With? ==> IsEarly(lp.s) && TookSyn(lp.s, s, toLarger))
    && (sp.With? ==> IsEarly(sp.s) && KnowsPeer(sp.s, lp))
    && (Adheres(sp) ==> Initiates(lp))
  }

  /** The packets to the larger node all come from the session the smaller one has now. */
  predicate SmallerIsNamed(s: string, sp: Peer, toLarger: set<Handshake>) {
    forall h :: h in toLarger ==> sp.With? && IsFrom(h, s, sp.s)
  }

  predicate IsSound(l: string, s: string, w: World) {
    Sound(l, s, PeerIn(w.larger, s), PeerIn(w.smaller, l), w.toLarger, w.toSmaller)
  }

  lemma SpeakingFrom(id: string, s: SessionView)
    requires IsEarly(s)
    ensures var (sent, t) := SendFrom(id, s);
            && t == s.(handshake := t.handshake)
            && t.handshake.initiator == s.handshake.initiator && t.handshake.stepCounter == s.handshake.stepCounter
            && (sent.Packet? ==> IsFrom(sent.h, id, s) && (sent.h.Syn? <==> s.handshake.initiator))
  {
  }

  /** A session is created to send a packet, and the directory refuses it. */
  predicate RefusedTo(p: Peer, c: Creation) {
    p.NoSession? && c.Created? && !c.registered
  }

  lemma LargerSpeaks(l: string, s: string, lp: Peer, sp: Peer, toLarger: set<Handshake>, toSmaller: set<Handshake>,
                     c: Creation)
    requires Sound(l, s, lp, sp, toLarger, toSmaller) && !RefusedTo(lp, c)
    ensures var (sent, after) := Spoke(l, lp, c);
            && Sound(l, s, after, sp, toLarger, WithSent(toSmaller, sent))
            && (lp.With? ==> after.With? && after.s.handshake.initiator == lp.s.handshake.initiator)
  {
    hide SendFrom;
    if lp.With? {
      SpeakingFrom(l, lp.s);
    } else if c.Created? {
      SpeakingFrom(l, NewSession(true, c));
    }
  }

  lemma SmallerSpeaks(l: string, s: string, lp: Peer, sp: Peer, toLarger: set<Handshake>,
                      toSmaller: set<Handshake>, c: Creation)
    requires Sound(l, s, lp, sp, toLarger, toSmaller)
    ensures var (sent, after) := Spoke(s, sp, c);
            && Sound(l, s, lp, after, WithSent(toLarger, sent), toSmaller)
            && (sp.With? ==> after.With? && after.s.handshake.initiator == sp.s.handshake.initiator)
            && (sp.NoSession? ==> !Adheres(after))
            && (SmallerIsNamed(s, sp, toLarger) && !RefusedTo(sp, c) ==>
                  SmallerIsNamed(s, after, WithSent(toLarger, sent)))
  {
    hide SendFrom;
    if sp.With? {
      SpeakingFrom(s, sp.s);
    } else if c.Created? {
      SpeakingFrom(s, NewSession(true, c));
    }
  }

  lemma LargerTakes(l: string, s: string, lp: Peer, sp: Peer, toLarger: set<Handshake>, toSmaller: set<Handshake>,
                    h: Handshake, c: Creation)
    requires Beats(l, s) && Sound(l, s, lp, sp, toLarger, toSmaller) && h in toLarger
    ensures var after := Arrived(l, lp, h, c);
            && Sound(l, s, after, sp, toLarger, toSmaller)
            && (lp.With? ==> after.With? && after.s.handshake.initiator == lp.s.handshake.initiator)
  {
    hide Beats;
  }

  lemma SmallerTakes(l: string, s: string, lp: Peer, sp: Peer, toLarger: set<Handshake>, toSmaller: set<Handshake>,
                     h: Handshake, c: Creation)
    requires Beats(l, s) && Sound(l, s, lp, sp, toLarger, toSmaller) && h in toSmaller
    ensures var after := Arrived(s, sp, h, c);
            && Sound(l, s, lp, after, toLarger, toSmaller)
            && (sp.With? ==> after.With?)
            && (Adheres(sp) ==> Adheres(after))
            && (after.With? ==> after.s.handshake.initiator != lp.s.handshake.initiator)
            && (SmallerIsNamed(s, sp, toLarger) ==> SmallerIsNamed(s, after, toLarger))
  {
    OneSideWins(l, s);
    hide Beats;
  }

  // Runs

  predicate IsRun(l: string, s: string, w: World, events: seq<Event>)
    requires IsNodeId(l) && IsNodeId(s)
    decreases |events|
  {
    events == [] ||
    (&& (forall h :: h in w.toLarger + w.toSmaller ==> IsNodeId(h.sender))
     && Enabled(l, s, w, events[0])
     && IsRun(l, s, Next(l, s, w, events[0]), events[1..]))
  }

  function After(l: string, s: string, w: World, events: seq<Event>): World
    requires IsNodeId(l) && IsNodeId(s) && IsRun(l, s, w, events)
    decreases |events|
  {
    if events == [] then w else After(l, s, Next(l, s, w, events[0]), events[1..])
  }

  /** Neither node has a session with the other and nothing was sent. */
  predicate IsStart(l: string, s: string, w: World) {
    s !in w.larger && l !in w.smaller && w.toLarger == {} && w.toSmaller == {}
  }

  predicate RolesDiffer(l: string, s: string, w: World) {
    s in w.larger && l in w.smaller && w.larger[s].handshake.initiator != w.smaller[l].handshake.initiator
  }

  /** What one step may do to the two roles. */
  predicate RolesMoveWell(l: string, s: string, w: World, v: World) {
    && (s in w.larger ==> s in v.larger && v.larger[s].handshake.initiator == w.larger[s].handshake.initiator)
    && (l in w.smaller ==> l in v.smaller)
    && (Adheres(PeerIn(w.smaller, l)) ==> Adheres(PeerIn(v.smaller, l)))
    && (RolesDiffer(l, s, w) ==> RolesDiffer(l, s, v))
  }

  /** In this step a node sends its peer a packet from a session that was created for it and that
      the directory refused, so that the node has no session afterwards. */
  predicate LargerRefused(s: string, w: World, e: Event) {
    e.LargerSends? && e.peerID == s && RefusedTo(PeerIn(w.larger, s), e.c)
  }

  predicate SmallerRefused(l: string, w: World, e: Event) {
    e.SmallerSends? && e.peerID == l && RefusedTo(PeerIn(w.smaller, l), e.c)
  }

  /** One step of either node, on anything the network or another node brings. */
  lemma StepKeepsSound(l: string, s: string, w: World, e: Event)
    requires IsNodeId(l) && IsNodeId(s) && ComesAfter(l, s)
    requires IsSound(l, s, w) && Enabled(l, s, w, e) && !LargerRefused(s, w, e)
    ensures forall h :: h in w.toLarger + w.toSmaller ==> IsNodeId(h.sender)
    ensures var v := Next(l, s, w, e);
            && IsSound(l, s, v) && RolesMoveWell(l, s, w, v)
            && (e.SmallerReceives? && l in v.smaller ==> RolesDiffer(l, s, v))
            && (SmallerIsNamed(s, PeerIn(w.smaller, l), w.toLarger) && !SmallerRefused(l, w, e) ==>
                  SmallerIsNamed(s, PeerIn(v.smaller, l), v.toLarger))
  {
    FirstDifferenceDecides(l, s);
    hide AfterDatagram, AfterSend, Arrived, Spoke, Beats, SenderOf, IsNodeId, Encode;
    var lp, sp := PeerIn(w.larger, s), PeerIn(w.smaller, l);
    match e
    case LargerSends(peerID, c) =>
      SpeakingOf(l, w.larger, peerID, c, s);
      if peerID == s {
        LargerSpeaks(l, s, lp, sp, w.toLarger, w.toSmaller, c);
      }
    case SmallerSends(peerID, c) =>
      SpeakingOf(s, w.smaller, peerID, c, l);
      if peerID == l {
        SmallerSpeaks(l, s, lp, sp, w.toLarger, w.toSmaller, c);
      }
    case LargerReceives(h, c) =>
      ArrivalOnTheWire(l, w.larger, h, c);
      LargerTakes(l, s, lp, sp, w.toLarger, w.toSmaller, h, c);
    case SmallerReceives(h, c) =>
      ArrivalOnTheWire(s, w.smaller, h, c);
      SmallerTakes(l, s, lp, sp, w.toLarger, w.toSmaller, h, c);
    case LargerHears(d, c) => OthersDoNotMatter(l, w.larger, d, c, s);
    case SmallerHears(d, c) => OthersDoNotMatter(s, w.smaller, d, c, l);
  }

  /** How often in a run a node speaks to its peer from a session that the directory refused. */
  function LargerRefusals(l: string, s: string, w: World, events: seq<Event>): nat
    requires IsNodeId(l) && IsNodeId(s) && IsRun(l, s, w, events)
    decreases |events|
  {
    if events == [] then 0
    else
      (if LargerRefused(s, w, events[0]) then 1 else 0) +
      LargerRefusals(l, s, Next(l, s, w, events[0]), events[1..])
  }

  function SmallerRefusals(l: string, s: string, w: World, events: seq<Event>): nat
    requires IsNodeId(l) && IsNodeId(s) && IsRun(l, s, w, events)
    decreases |events|
  {
    if events == [] then 0
    else
      (if SmallerRefused(l, w, events[0]) then 1 else 0) +
      SmallerRefusals(l, s, Next(l, s, w, events[0]), events[1..])
  }

  lemma {:induction false} RunsAreSound(l: string, s: string, w: World, events: seq<Event>)
    requires IsNodeId(l) && IsNodeId(s) && ComesAfter(l, s)
    requires IsSound(l, s, w) && IsRun(l, s, w, events) && LargerRefusals(l, s, w, events) == 0
    ensures var v := After(l, s, w, events);
            && IsSound(l, s, v) && RolesMoveWell(l, s, w, v)
            && (SmallerIsNamed(s, PeerIn(w.smaller, l), w.toLarger) && SmallerRefusals(l, s, w, events) == 0 ==>
                  SmallerIsNamed(s, PeerIn(v.smaller, l), v.toLarger))
    decreases |events|
  {
    hide ComesAfter, Beats, IsNodeId, Sound, Enabled, LargerRefused, SmallerRefused, SmallerIsNamed;
    if events != [] {
      StepKeepsSound(l, s, w, events[0]);
      RunsAreSound(l, s, Next(l, s, w, events[0]), events[1..]);
    }
    hide Next;
  }

  lemma {:induction false} RunSplits(l: string, s: string, w: World, a: seq<Event>, b: seq<Event>)
    requires IsNodeId(l) && IsNodeId(s) && IsRun(l, s, w, a + b)
    ensures IsRun(l, s, w, a) && IsRun(l, s, After(l, s, w, a), b)
    ensures After(l, s, w, a + b) == After(l, s, After(l, s, w, a), b)
    ensures LargerRefusals(l, s, w, a + b) == LargerRefusals(l, s, w, a) + LargerRefusals(l, s, After(l, s, w, a), b)
    ensures SmallerChanges(l, s, w, a + b) == SmallerChanges(l, s, w, a) + SmallerChanges(l, s, After(l, s, w, a), b)
    decreases |a|
  {
    hide IsNodeId, Enabled, LargerRefused, Changed;
    if a == [] {
      assert a + b == b;
    } else {
      assert (a + b)[0] == a[0] && (a + b)[1..] == a[1..] + b;
      RunSplits(l, s, Next(l, s, w, a[0]), a[1..], b);
    }
    hide Next;
  }

  predicate Changed(p: Peer, q: Peer) {
    p.With? && q.With? && p.s.handshake.initiator != q.s.handshake.initiator
  }

  /** How often a node changes its role in a run. */
  function LargerChanges(l: string, s: string, w: World, events: seq<Event>): nat
    requires IsNodeId(l) && IsNodeId(s) && IsRun(l, s, w, events)
    decreases |events|
  {
    if events == [] then 0
    else
      var v := Next(l, s, w, events[0]);
      (if Changed(PeerIn(w.larger, s), PeerIn(v.larger, s)) then 1 else 0) + LargerChanges(l, s, v, events[1..])
  }

  function SmallerChanges(l: string, s: string, w: World, events: seq<Event>): nat
    requires IsNodeId(l) && IsNodeId(s) && IsRun(l, s, w, events)
    decreases |events|
  {
    if events == [] then 0
    else
      var v := Next(l, s, w, events[0]);
      (if Changed(PeerIn(w.smaller, l), PeerIn(v.smaller, l)) then 1 else 0) + SmallerChanges(l, s, v, events[1..])
  }

  lemma {:induction false} ChangesFromSound(l: string, s: string, w: World, events: seq<Event>)
    requires IsNodeId(l) && IsNodeId(s) && ComesAfter(l, s)
    requires IsSound(l, s, w) && IsRun(l, s, w, events) && LargerRefusals(l, s, w, events) == 0
    ensures SmallerChanges(l, s, w, events) <= if Adheres(PeerIn(w.smaller, l)) then 0 else 1
    decreases |events|
  {
    hide ComesAfter, Beats, IsNodeId, Sound, Enabled, LargerRefused, SmallerIsNamed;
    if events != [] {
      StepKeepsSound(l, s, w, events[0]);
      ChangesFromSound(l, s, Next(l, s, w, events[0]), events[1..]);
    }
    hide Next;
  }

  predicate Named(l: string, s: string, w: World) {
    (forall h :: h in w.toSmaller ==> h.sender == l) && (forall h :: h in w.toLarger ==> h.sender == s)
  }

  lemma SendingKeepsRole(id: string, s: SessionView)
    ensures var (sent, t) := SendFrom(id, s);
            t.handshake.initiator == s.handshake.initiator && (sent.Packet? ==> sent.h.sender == id)
  {
  }

  lemma SpokeKeepsRole(id: string, p: Peer, c: Creation)
    ensures var (sent, after) := Spoke(id, p, c);
            && (sent.Packet? ==> sent.h.sender == id)
            && (p.With? ==> after.With? && after.s.handshake.initiator == p.s.handshake.initiator)
  {
    hide SendFrom;
    if p.With? {
      SendingKeepsRole(id, p.s);
    } else if c.Created? {
      SendingKeepsRole(id, NewSession(true, c));
    }
  }

  lemma WinnerKeepsRole(l: string, p: Peer, h: Handshake, c: Creation)
    requires Beats(l, h.sender)
    ensures p.With? ==>
      Arrived(l, p, h, c).With? && Arrived(l, p, h, c).s.handshake.initiator == p.s.handshake.initiator
  {
    hide Beats, Agrees;
  }

  lemma StepKeepsLarger(l: string, s: string, w: World, e: Event)
    requires IsNodeId(l) && IsNodeId(s) && ComesAfter(l, s) && Named(l, s, w) && Enabled(l, s, w, e)
    ensures forall h :: h in w.toLarger + w.toSmaller ==> IsNodeId(h.sender)
    ensures Named(l, s, Next(l, s, w, e))
    ensures !Changed(PeerIn(w.larger, s), PeerIn(Next(l, s, w, e).larger, s))
  {
    FirstDifferenceDecides(l, s);
    hide AfterDatagram, AfterSend, Arrived, Spoke, Beats, SenderOf, IsNodeId, Encode;
    match e
    case LargerSends(peerID, c) =>
      SpeakingOf(l, w.larger, peerID, c, s);
      SpokeKeepsRole(l, PeerIn(w.larger, s), c);
    case SmallerSends(peerID, c) =>
      SpeakingOf(s, w.smaller, peerID, c, l);
      SpokeKeepsRole(s, PeerIn(w.smaller, l), c);
    case LargerReceives(h, c) =>
      ArrivalOnTheWire(l, w.larger, h, c);
      WinnerKeepsRole(l, PeerIn(w.larger, s), h, c);
    case SmallerReceives(h, c) =>
    case LargerHears(d, c) => OthersDoNotMatter(l, w.larger, d, c, s);
    case SmallerHears(d, c) =>
  }

  /** In every run whatever, sessions refused or not: the node with the larger id never changes the
      role of the session it has. */
  lemma {:induction false} LargerNeverChanges(l: string, s: string, w: World, events: seq<Event>)
    requires IsNodeId(l) && IsNodeId(s) && ComesAfter(l, s)
    requires Named(l, s, w) && IsRun(l, s, w, events)
    ensures LargerChanges(l, s, w, events) == 0
    decreases |events|
  {
    hide ComesAfter, Beats, IsNodeId, Enabled, Changed;
    if events != [] {
      StepKeepsLarger(l, s, w, events[0]);
      LargerNeverChanges(l, s, Next(l, s, w, events[0]), events[1..]);
    }
    hide Next;
  }

  /** The role conflict is settled: once it has a session, the node with the larger id never
      changes its role, and the other one changes its own at most once unless the larger spoke from
      a session that was refused. */
  lemma RolesChangeAtMostOnce(l: string, s: string, w: World, events: seq<Event>)
    requires IsNodeId(l) && IsNodeId(s) && ComesAfter(l, s)
    requires IsStart(l, s, w) && IsRun(l, s, w, events)
    ensures LargerChanges(l, s, w, events) == 0
    ensures LargerRefusals(l, s, w, events) == 0 ==> SmallerChanges(l, s, w, events) <= 1
  {
    LargerNeverChanges(l, s, w, events);
    if LargerRefusals(l, s, w, events) == 0 {
      ChangesFromSound(l, s, w, events);
    }
  }

  /** And it is settled for good: once the roles differ they differ for ever. */
  lemma RolesDifferForEver(l: string, s: string, w: World, before: seq<Event>, later: seq<Event>)
    requires IsNodeId(l) && IsNodeId(s) && ComesAfter(l, s)
    requires IsStart(l, s, w) && IsRun(l, s, w, before + later) && LargerRefusals(l, s, w, before + later) == 0
    ensures IsRun(l, s, w, before)
    ensures RolesDiffer(l, s, After(l, s, w, before)) ==> RolesDiffer(l, s, After(l, s, w, before + later))
  {
    hide ComesAfter, Beats, IsNodeId, Next, Enabled, Sound, IsRun, After, LargerRefusals;
    RunSplits(l, s, w, before, later);
    assert IsSound(l, s, w) by { StartIsSound(l, s, w); }
    RunsAreSound(l, s, w, before);
    RunsAreSound(l, s, After(l, s, w, before), later);
  }

  /** One packet is enough: as soon as the smaller node has processed any handshake packet of the
      larger one, first or repeated, early or late, the roles differ and stay so. */
  lemma OnePacketSettlesRoles(l: string, s: string, w: World, before: seq<Event>, e: Event, later: seq<Event>)
    requires IsNodeId(l) && IsNodeId(s) && ComesAfter(l, s)
    requires IsStart(l, s, w) && e.SmallerReceives? && IsRun(l, s, w, before + [e] + later)
    requires LargerRefusals(l, s, w, before + [e] + later) == 0
    ensures IsRun(l, s, w, before + [e])
    ensures l in After(l, s, w, before + [e]).smaller ==> RolesDiffer(l, s, After(l, s, w, before + [e] + later))
  {
    hide ComesAfter, Beats, IsNodeId, Next, Enabled, Sound, IsRun, After, LargerRefusals, LargerRefused;
    RolesDifferForEver(l, s, w, before + [e], later);
    RunSplits(l, s, w, before + [e], later);
    RunSplits(l, s, w, before, [e]);
    assert IsSound(l, s, w) by { StartIsSound(l, s, w); }
    RunsAreSound(l, s, w, before);
    FirstOf(l, s, After(l, s, w, before), [e]);
    StepKeepsSound(l, s, After(l, s, w, before), e);
  }

  lemma StartIsSound(l: string, s: string, w: World)
    requires IsStart(l, s, w)
    ensures IsSound(l, s, w)
  {
  }

  lemma FirstOf(l: string, s: string, w: World, events: seq<Event>)
    requires IsNodeId(l) && IsNodeId(s) && IsRun(l, s, w, events) && events != []
    ensures forall h :: h in w.toLarger + w.toSmaller ==> IsNodeId(h.sender)
    ensures Enabled(l, s, w, events[0])
    ensures IsRun(l, s, Next(l, s, w, events[0]), events[1..])
    ensures After(l, s, w, events) == After(l, s, Next(l, s, w, events[0]), events[1..])
    ensures |events| == 1 ==> After(l, s, w, events) == Next(l, s, w, events[0])
    ensures LargerRefusals(l, s, w, events) == 0 ==> !LargerRefused(s, w, events[0])
  {
  }

  /** No handshake gets past its second packet. In every run an initiator stays at its first step
      and never learns its peer's session id, no ACK is ever sent, and no session is beyond
      having taken a SYN; but the id and nonce an adherent took are those its peer chose, for the
      larger node those of a SYN its peer sent from whatever session. */
  lemma NoHandshakeCompletes(l: string, s: string, w: World, events: seq<Event>)
    requires IsNodeId(l) && IsNodeId(s) && ComesAfter(l, s)
    requires IsStart(l, s, w) && IsRun(l, s, w, events) && LargerRefusals(l, s, w, events) == 0
    ensures var v := After(l, s, w, events);
            var lp, sp := PeerIn(v.larger, s), PeerIn(v.smaller, l);
            && (forall h :: h in v.toLarger + v.toSmaller ==> !h.Ack?)
            && (lp.With? ==> lp.s.handshake.stepCounter <= 1)
            && (sp.With? ==> sp.s.handshake.stepCounter <= 1)
            && (Initiates(lp) ==> lp.s.handshake.stepCounter == 0 && lp.s.remoteSessionID == 0)
            && (Initiates(sp) ==> sp.s.handshake.stepCounter == 0 && sp.s.remoteSessionID == 0)
            && (lp.With? && lp.s.handshake.stepCounter == 1 ==> lp.s.remoteSessionID >= 4 && lp.s.theirLastNonce != 0)
            && (sp.With? && sp.s.handshake.stepCounter == 1 ==> sp.s.remoteSessionID >= 4 && sp.s.theirLastNonce != 0)
            && (lp.With? && lp.s.handshake.stepCounter == 1 ==>
                  Syn(s, lp.s.remoteSessionID, lp.s.theirLastNonce) in v.toLarger)
            && (lp.With? && lp.s.handshake.stepCounter == 1 && SmallerRefusals(l, s, w, events) == 0 ==>
                  sp.With? && lp.s.remoteSessionID == sp.s.localSessionID && lp.s.theirLastNonce == sp.s.ourSynNonce)
            && (sp.With? && sp.s.handshake.stepCounter == 1 ==>
                  lp.With? && sp.s.remoteSessionID == lp.s.localSessionID && sp.s.theirLastNonce == lp.s.ourSynNonce)
  {
    RunsAreSound(l, s, w, events);
    hide IsRun, After, Beats, IsNodeId, LargerRefusals, SmallerRefusals;
  }

  /** The conflict does happen: when both nodes open a session of their own, both are initiators;
      the smaller one changes its role when the other's SYN arrives, the first time and only then. */
  lemma BothMayBegin(l: string, s: string, w: World, c: Creation, d: Creation)
    requires IsNodeId(l) && IsNodeId(s) && ComesAfter(l, s) && IsStart(l, s, w)
    requires c.Created? && c.registered && d.Created? && d.registered
    ensures var h := Syn(l, c.localSessionID, c.synNonce);
            var both := [LargerSends(s, c), SmallerSends(l, d)];
            var all := [LargerSends(s, c), SmallerSends(l, d), SmallerReceives(h, d)];
            && IsRun(l, s, w, both) && IsRun(l, s, w, all)
            && Initiates(PeerIn(After(l, s, w, both).larger, s))
            && Initiates(PeerIn(After(l, s, w, both).smaller, l))
            && SmallerChanges(l, s, w, all) == 1
  {
    FirstDifferenceDecides(l, s);
    hide ComesAfter, Beats, IsNodeId, Encode, AfterDatagram;
    var h := Syn(l, c.localSessionID, c.synNonce);
    var e0, e1, e2 := LargerSends(s, c), SmallerSends(l, d), SmallerReceives(h, d);
    var v := Next(l, s, w, e0);
    var u := Next(l, s, v, e1);
    OneSideWins(l, s);
    ArrivalOnTheWire(s, u.smaller, h, d);
    var x := Next(l, s, u, e2);
    hide Next;
    assert [e0, e1, e2][1..] == [e1, e2] && [e1, e2][1..] == [e2] && [e2][1..] == [];
    assert [e0, e1][1..] == [e1] && [e1][1..] == [];
    assert IsRun(l, s, x, []) && IsRun(l, s, u, [e2]) && IsRun(l, s, v, [e1, e2]);
    assert IsRun(l, s, u, []) && IsRun(l, s, v, [e1]) && After(l, s, v, [e1]) == u;
    assert SmallerChanges(l, s, u, [e2]) == 1;
    assert SmallerChanges(l, s, v, [e1, e2]) == 1;
  }
}
