/** What one refused session does to the handshake: the larger node speaks once from a session the
    directory would not list, and the roles never settle. */
module RoleRefusals {
  import opened Wire
  import opened HandshakePackets
  import opened Handshakes
  import opened Channels
  import opened RoleRuns

  const REFUSED: Creation := Created(false, 4, 1, 2, 3)
  const LISTED: Creation := Created(true, 5, 4, 5, 6)

  function Empty(): World {
    World(map[], map[], {}, {})
  }

  function LargerSyn(l: string): Handshake {
    Syn(l, REFUSED.localSessionID, REFUSED.synNonce)
  }

  function SmallerSyn(s: string): Handshake {
    Syn(s, LISTED.localSessionID, LISTED.synNonce)
  }

  function LargerSynAck(l: string): Handshake {
    SynAck(l, LISTED.localSessionID, LISTED.synNonce, LISTED.synAckNonce)
  }

  /** The session of the smaller node while its role goes to and fro: it has sent its SYN and has
      taken nothing. */
  function Torn(initiator: bool): SessionView {
    NewSession(true, LISTED).(handshake := HandshakeView(initiator, 0, true))
  }

  /** The session of the larger node: it took the smaller one's SYN and answered. */
  function Answering(): SessionView {
    NewSession(false, LISTED).(handshake := HandshakeView(false, 1, true),
                               remoteSessionID := LISTED.localSessionID, theirLastNonce := LISTED.synNonce)
  }

  /** The two packets that turn the smaller node to and fro are on the network. */
  predicate IsTorn(l: string, s: string, w: World, initiator: bool) {
    && PeerIn(w.larger, s) == With(Answering()) && PeerIn(w.smaller, l) == With(Torn(initiator))
    && w.toLarger == {SmallerSyn(s)} && w.toSmaller == {LargerSyn(l), LargerSynAck(l)}
  }

  /** The smaller node sends its SYN; the larger sends a SYN from a session that is refused; both
      SYNs arrive, and the larger, which has no session, becomes an adherent as well and answers. */
  function Opening(l: string, s: string): seq<Event> {
    [SmallerSends(l, LISTED), LargerSends(s, REFUSED), SmallerReceives(LargerSyn(l), NotCreated),
     LargerReceives(SmallerSyn(s), LISTED), LargerSends(s, NotCreated)]
  }

  lemma NoMore(l: string, s: string, w: World)
    requires IsNodeId(l) && IsNodeId(s)
    ensures IsRun(l, s, w, []) && After(l, s, w, []) == w
    ensures LargerRefusals(l, s, w, []) == 0 && SmallerChanges(l, s, w, []) == 0
  {
  }

  /** A run from its first step and the rest. */
  lemma Puts(l: string, s: string, w: World, e: Event, rest: seq<Event>, v: World)
    requires IsNodeId(l) && IsNodeId(s)
    requires forall h :: h in w.toLarger + w.toSmaller ==> IsNodeId(h.sender)
    requires Enabled(l, s, w, e) && v == Next(l, s, w, e) && IsRun(l, s, v, rest)
    ensures IsRun(l, s, w, [e] + rest) && After(l, s, w, [e] + rest) == After(l, s, v, rest)
    ensures LargerRefusals(l, s, w, [e] + rest) ==
            (if LargerRefused(s, w, e) then 1 else 0) + LargerRefusals(l, s, v, rest)
    ensures SmallerChanges(l, s, w, [e] + rest) ==
            (if Changed(PeerIn(w.smaller, l), PeerIn(v.smaller, l)) then 1 else 0) + SmallerChanges(l, s, v, rest)
  {
    hide IsNodeId, Enabled, Next, LargerRefused, Changed;
    assert ([e] + rest)[1..] == rest;
  }

  lemma Opens(l: string, s: string)
    requires IsNodeId(l) && IsNodeId(s) && ComesAfter(l, s)
    ensures var w := Empty();
            && IsRun(l, s, w, Opening(l, s)) && IsTorn(l, s, After(l, s, w, Opening(l, s)), false)
            && LargerRefusals(l, s, w, Opening(l, s)) == 1 && SmallerChanges(l, s, w, Opening(l, s)) == 1
  {
    FirstDifferenceDecides(l, s);
    hide ComesAfter, Beats, IsNodeId, Encode, AfterDatagram, IsRun, After, LargerRefusals, SmallerChanges;
    OneSideWins(l, s);
    var e := Opening(l, s);
    var w0 := Empty();
    var w1 := Next(l, s, w0, e[0]);
    var w2 := Next(l, s, w1, e[1]);
    ArrivalOnTheWire(s, w2.smaller, LargerSyn(l), NotCreated);
    var w3 := Next(l, s, w2, e[2]);
    ArrivalOnTheWire(l, w3.larger, SmallerSyn(s), LISTED);
    var w4 := Next(l, s, w3, e[3]);
    var w5 := Next(l, s, w4, e[4]);
    assert IsTorn(l, s, w5, false);
    NoMore(l, s, w5);
    Puts(l, s, w4, e[4], [], w5);
    Puts(l, s, w3, e[3], [e[4]] + [], w4);
    Puts(l, s, w2, e[2], [e[3]] + ([e[4]] + []), w3);
    Puts(l, s, w1, e[1], [e[2]] + ([e[3]] + ([e[4]] + [])), w2);
    Puts(l, s, w0, e[0], [e[1]] + ([e[2]] + ([e[3]] + ([e[4]] + []))), w1);
    assert e == [e[0]] + ([e[1]] + ([e[2]] + ([e[3]] + ([e[4]] + []))));
  }

  /** A packet the larger node sent before, delivered again. */
  function Turn(l: string, initiator: bool): Event {
    SmallerReceives(if initiator then LargerSyn(l) else LargerSynAck(l), NotCreated)
  }

  lemma Turns(l: string, s: string, w: World, initiator: bool)
    requires IsNodeId(l) && IsNodeId(s) && ComesAfter(l, s) && IsTorn(l, s, w, initiator)
    ensures forall h :: h in w.toLarger + w.toSmaller ==> IsNodeId(h.sender)
    ensures Enabled(l, s, w, Turn(l, initiator))
    ensures IsTorn(l, s, Next(l, s, w, Turn(l, initiator)), !initiator)
  {
    FirstDifferenceDecides(l, s);
    hide ComesAfter, Beats, IsNodeId, Encode, AfterDatagram;
    OneSideWins(l, s);
    var h := if initiator then LargerSyn(l) else LargerSynAck(l);
    ArrivalOnTheWire(s, w.smaller, h, NotCreated);
  }

  lemma {:induction false} TurnsForEver(l: string, s: string, w: World, initiator: bool, n: nat)
    returns (events: seq<Event>)
    requires IsNodeId(l) && IsNodeId(s) && ComesAfter(l, s) && IsTorn(l, s, w, initiator)
    ensures IsRun(l, s, w, events) && LargerRefusals(l, s, w, events) == 0 && SmallerChanges(l, s, w, events) == n
    decreases n
  {
    hide ComesAfter, Beats, IsNodeId, Encode, Enabled, Next, IsRun, LargerRefusals, SmallerChanges;
    events := [];
    if n == 0 {
      NoMore(l, s, w);
    } else {
      Turns(l, s, w, initiator);
      var v := Next(l, s, w, Turn(l, initiator));
      var rest := TurnsForEver(l, s, v, !initiator, n - 1);
      Puts(l, s, w, Turn(l, initiator), rest, v);
      events := [Turn(l, initiator)] + rest;
    }
  }

  /** Without that condition the roles do not settle: for every n there is a run in which one session
      of the larger node is refused and the smaller node changes its role n + 1 times. */
  lemma OneRefusalUnsettlesRoles(l: string, s: string, n: nat) returns (events: seq<Event>)
    requires IsNodeId(l) && IsNodeId(s) && ComesAfter(l, s)
    ensures IsStart(l, s, Empty()) && IsRun(l, s, Empty(), events)
    ensures LargerRefusals(l, s, Empty(), events) == 1 && SmallerChanges(l, s, Empty(), events) == n + 1
  {
    hide ComesAfter, Beats, IsNodeId, IsRun, LargerRefusals, SmallerChanges, Opening, IsTorn;
    Opens(l, s);
    var rest := TurnsForEver(l, s, After(l, s, Empty(), Opening(l, s)), false, n);
    events := Opening(l, s) + rest;
    RunsJoin(l, s, Empty(), Opening(l, s), rest);
    RunSplits(l, s, Empty(), Opening(l, s), rest);
  }

  lemma {:induction false} RunsJoin(l: string, s: string, w: World, a: seq<Event>, b: seq<Event>)
    requires IsNodeId(l) && IsNodeId(s) && IsRun(l, s, w, a) && IsRun(l, s, After(l, s, w, a), b)
    ensures IsRun(l, s, w, a + b)
    decreases |a|
  {
    hide IsNodeId, Enabled, Next, IsRun, After;
    if a == [] {
      NoMore(l, s, w);
      assert a + b == b;
    } else {
      FirstOf(l, s, w, a);
      var v := Next(l, s, w, a[0]);
      RunsJoin(l, s, v, a[1..], b);
      Puts(l, s, w, a[0], a[1..] + b, v);
      assert [a[0]] + (a[1..] + b) == a + b;
    }
  }

  /** In every run with at most k such refusals the smaller node changes its role at most once. */
  ghost predicate RolesSettle(l: string, s: string, k: nat)
    requires IsNodeId(l) && IsNodeId(s)
  {
    forall w: World, events: seq<Event> ::
      IsStart(l, s, w) && IsRun(l, s, w, events) && LargerRefusals(l, s, w, events) <= k ==>
        SmallerChanges(l, s, w, events) <= 1
  }

  /** Role conflicts are settled if and only if the larger node never speaks from a refused session. */
  lemma RolesSettleExactlyWithoutRefusals(l: string, s: string, k: nat)
    requires IsNodeId(l) && IsNodeId(s) && ComesAfter(l, s)
    ensures RolesSettle(l, s, k) <==> k == 0
  {
    hide ComesAfter, Beats, IsNodeId, IsRun, LargerRefusals, SmallerChanges, IsStart;
    if k == 0 {
      forall w: World, events: seq<Event> |
        IsStart(l, s, w) && IsRun(l, s, w, events) && LargerRefusals(l, s, w, events) <= k
        ensures SmallerChanges(l, s, w, events) <= 1
      {
        RolesChangeAtMostOnce(l, s, w, events);
      }
    } else {
      var events := OneRefusalUnsettlesRoles(l, s, 1);
    }
  }

  /** Nor do roles that differ stay different: in that run they differ after the first SYN-ACK and
      are the same again after a repeated SYN. */
  lemma RolesMeetAgain(l: string, s: string)
    requires IsNodeId(l) && IsNodeId(s) && ComesAfter(l, s)
    ensures var before, later := Opening(l, s) + [Turn(l, false)], [Turn(l, true)];
            && IsRun(l, s, Empty(), before) && IsRun(l, s, Empty(), before + later)
            && RolesDiffer(l, s, After(l, s, Empty(), before))
            && !RolesDiffer(l, s, After(l, s, Empty(), before + later))
  {
    hide ComesAfter, Beats, IsNodeId, IsRun, Opening, Next, Enabled, Turn, Encode, LargerRefusals, SmallerChanges;
    Opens(l, s);
    var w := After(l, s, Empty(), Opening(l, s));
    Turns(l, s, w, false);
    var v := Next(l, s, w, Turn(l, false));
    Turns(l, s, v, true);
    var u := Next(l, s, v, Turn(l, true));
    NoMore(l, s, v);
    NoMore(l, s, u);
    Puts(l, s, w, Turn(l, false), [], v);
    Puts(l, s, v, Turn(l, true), [], u);
    assert [Turn(l, false)] + [] == [Turn(l, false)] && [Turn(l, true)] + [] == [Turn(l, true)];
    RunsJoin(l, s, Empty(), Opening(l, s), [Turn(l, false)]);
    RunSplits(l, s, Empty(), Opening(l, s), [Turn(l, false)]);
    RunsJoin(l, s, Empty(), Opening(l, s) + [Turn(l, false)], [Turn(l, true)]);
    RunSplits(l, s, Empty(), Opening(l, s) + [Turn(l, false)], [Turn(l, true)]);
    hide After;
  }

  /** The smaller node takes the larger one's SYN as the adherent, turns initiator on its SYN-ACK,
      takes that when it comes again, and acknowledges it. */
  function Closing(l: string): seq<Event> {
    [SmallerReceives(LargerSyn(l), NotCreated), SmallerReceives(LargerSynAck(l), NotCreated),
     SmallerReceives(LargerSynAck(l), NotCreated), SmallerSends(l, NotCreated)]
  }

  lemma Closes(l: string, s: string, w: World)
    requires IsNodeId(l) && IsNodeId(s) && ComesAfter(l, s) && IsTorn(l, s, w, false)
    ensures IsRun(l, s, w, Closing(l)) && LargerRefusals(l, s, w, Closing(l)) == 0
    ensures Ack(s, LISTED.synAckNonce) in After(l, s, w, Closing(l)).toLarger
  {
    FirstDifferenceDecides(l, s);
    hide ComesAfter, Beats, IsNodeId, Encode, AfterDatagram, IsRun, After, LargerRefusals, SmallerChanges;
    OneSideWins(l, s);
    var e := Closing(l);
    ArrivalOnTheWire(s, w.smaller, LargerSyn(l), NotCreated);
    var w1 := Next(l, s, w, e[0]);
    ArrivalOnTheWire(s, w1.smaller, LargerSynAck(l), NotCreated);
    var w2 := Next(l, s, w1, e[1]);
    ArrivalOnTheWire(s, w2.smaller, LargerSynAck(l), NotCreated);
    var w3 := Next(l, s, w2, e[2]);
    var w4 := Next(l, s, w3, e[3]);
    assert Ack(s, LISTED.synAckNonce) in w4.toLarger;
    NoMore(l, s, w4);
    Puts(l, s, w3, e[3], [], w4);
    Puts(l, s, w2, e[2], [e[3]] + [], w3);
    Puts(l, s, w1, e[1], [e[2]] + ([e[3]] + []), w2);
    Puts(l, s, w, e[0], [e[1]] + ([e[2]] + ([e[3]] + [])), w1);
    assert e == [e[0]] + ([e[1]] + ([e[2]] + ([e[3]] + [])));
  }

  /** And a handshake does get past its second packet: with one refusal of the larger node, there is a
      run in which an initiator takes a SYN-ACK and sends an ACK. */
  lemma OneRefusalLetsAnAckThrough(l: string, s: string) returns (events: seq<Event>)
    requires IsNodeId(l) && IsNodeId(s) && ComesAfter(l, s)
    ensures IsStart(l, s, Empty()) && IsRun(l, s, Empty(), events) && LargerRefusals(l, s, Empty(), events) == 1
    ensures exists h :: h in After(l, s, Empty(), events).toLarger && h.Ack?
  {
    hide ComesAfter, Beats, IsNodeId, IsRun, LargerRefusals, SmallerChanges, Opening, Closing, IsTorn, After;
    Opens(l, s);
    var w := After(l, s, Empty(), Opening(l, s));
    Closes(l, s, w);
    events := Opening(l, s) + Closing(l);
    RunsJoin(l, s, Empty(), Opening(l, s), Closing(l));
    RunSplits(l, s, Empty(), Opening(l, s), Closing(l));
    assert Ack(s, LISTED.synAckNonce).Ack?;
  }

  /** In every run with at most k such refusals no ACK is sent. */
  ghost predicate NoAckIsSent(l: string, s: string, k: nat)
    requires IsNodeId(l) && IsNodeId(s)
  {
    forall w: World, events: seq<Event> ::
      IsStart(l, s, w) && IsRun(l, s, w, events) && LargerRefusals(l, s, w, events) <= k ==>
        forall h :: h in After(l, s, w, events).toLarger + After(l, s, w, events).toSmaller ==> !h.Ack?
  }

  /** Handshakes stop before the ACK if and only if the larger node never speaks from a refused session. */
  lemma NoAckIsSentExactlyWithoutRefusals(l: string, s: string, k: nat)
    requires IsNodeId(l) && IsNodeId(s) && ComesAfter(l, s)
    ensures NoAckIsSent(l, s, k) <==> k == 0
  {
    hide ComesAfter, Beats, IsNodeId, IsRun, LargerRefusals, SmallerChanges, SmallerRefusals, IsStart, After;
    if k == 0 {
      forall w: World, events: seq<Event> |
        IsStart(l, s, w) && IsRun(l, s, w, events) && LargerRefusals(l, s, w, events) <= k
        ensures forall h :: h in After(l, s, w, events).toLarger + After(l, s, w, events).toSmaller ==> !h.Ack?
      {
        NoHandshakeCompletes(l, s, w, events);
      }
    } else {
      var events := OneRefusalLetsAnAckThrough(l, s);
      var h :| h in After(l, s, Empty(), events).toLarger && h.Ack?;
      assert h in After(l, s, Empty(), events).toLarger + After(l, s, Empty(), events).toSmaller;
    }
  }

  // Refusals of the smaller node

  /** The smaller node sends a SYN from a session that is refused, the larger takes it, and then the
      smaller opens a session that is listed. */
  function Straying(l: string, s: string): seq<Event> {
    [SmallerSends(l, REFUSED), LargerReceives(Syn(s, REFUSED.localSessionID, REFUSED.synNonce), LISTED),
     SmallerSends(l, LISTED)]
  }

  lemma NoMoreRefusals(l: string, s: string, w: World)
    requires IsNodeId(l) && IsNodeId(s)
    ensures IsRun(l, s, w, []) && SmallerRefusals(l, s, w, []) == 0
  {
  }

  lemma PutsRefusal(l: string, s: string, w: World, e: Event, rest: seq<Event>, v: World)
    requires IsNodeId(l) && IsNodeId(s)
    requires forall h :: h in w.toLarger + w.toSmaller ==> IsNodeId(h.sender)
    requires Enabled(l, s, w, e) && v == Next(l, s, w, e) && IsRun(l, s, v, rest)
    ensures IsRun(l, s, w, [e] + rest)
    ensures SmallerRefusals(l, s, w, [e] + rest) ==
            (if SmallerRefused(l, w, e) then 1 else 0) + SmallerRefusals(l, s, v, rest)
  {
    hide IsNodeId, Enabled, Next, SmallerRefused;
    assert ([e] + rest)[1..] == rest;
  }

  /** Then the adherent larger node holds an id and a nonce that belong to no session its peer has. */
  lemma OneRefusalLeadsAstray(l: string, s: string)
    requires IsNodeId(l) && IsNodeId(s) && ComesAfter(l, s)
    ensures var w, events := Empty(), Straying(l, s);
            && IsStart(l, s, w) && IsRun(l, s, w, events)
            && LargerRefusals(l, s, w, events) == 0 && SmallerRefusals(l, s, w, events) == 1
            && var v := After(l, s, w, events);
               && s in v.larger && l in v.smaller && v.larger[s].handshake.stepCounter == 1
               && v.larger[s].remoteSessionID != v.smaller[l].localSessionID
               && v.larger[s].theirLastNonce != v.smaller[l].ourSynNonce
  {
    hide ComesAfter, Beats, IsNodeId, Encode, AfterDatagram, IsRun, After, LargerRefusals, SmallerRefusals,
        SmallerChanges;
    var e := Straying(l, s);
    var w0 := Empty();
    var w1 := Next(l, s, w0, e[0]);
    ArrivalOnTheWire(l, w1.larger, e[1].h, LISTED);
    var w2 := Next(l, s, w1, e[1]);
    var w3 := Next(l, s, w2, e[2]);
    assert PeerIn(w3.larger, s).With? && PeerIn(w3.smaller, l).With?;
    NoMore(l, s, w3);
    NoMoreRefusals(l, s, w3);
    Puts(l, s, w2, e[2], [], w3);
    PutsRefusal(l, s, w2, e[2], [], w3);
    Puts(l, s, w1, e[1], [e[2]] + [], w2);
    PutsRefusal(l, s, w1, e[1], [e[2]] + [], w2);
    Puts(l, s, w0, e[0], [e[1]] + ([e[2]] + []), w1);
    PutsRefusal(l, s, w0, e[0], [e[1]] + ([e[2]] + []), w1);
    assert e == [e[0]] + ([e[1]] + ([e[2]] + []));
  }

  /** In every run without refusals of the larger node, and with at most k of the smaller, the larger
      node, once it took a SYN, holds the id and the nonce of the session its peer has. */
  ghost predicate LargerKnowsPeer(l: string, s: string, k: nat)
    requires IsNodeId(l) && IsNodeId(s)
  {
    forall w: World, events: seq<Event> ::
      IsStart(l, s, w) && IsRun(l, s, w, events) &&
      LargerRefusals(l, s, w, events) == 0 && SmallerRefusals(l, s, w, events) <= k ==>
        PeerIsKnown(l, s, After(l, s, w, events))
  }

  ghost predicate PeerIsKnown(l: string, s: string, v: World) {
    s in v.larger && v.larger[s].handshake.stepCounter == 1 ==> KnowsPeer(v.larger[s], PeerIn(v.smaller, l))
  }

  /** It does if and only if the smaller node never speaks from a refused session. */
  lemma LargerKnowsPeerExactlyWithoutRefusals(l: string, s: string, k: nat)
    requires IsNodeId(l) && IsNodeId(s) && ComesAfter(l, s)
    ensures LargerKnowsPeer(l, s, k) <==> k == 0
  {
    hide ComesAfter, Beats, IsNodeId, IsRun, LargerRefusals, SmallerChanges, SmallerRefusals, IsStart, After, Straying;
    if k == 0 {
      forall w: World, events: seq<Event> |
        IsStart(l, s, w) && IsRun(l, s, w, events) &&
        LargerRefusals(l, s, w, events) == 0 && SmallerRefusals(l, s, w, events) <= k
        ensures PeerIsKnown(l, s, After(l, s, w, events))
      {
        NoHandshakeCompletes(l, s, w, events);
      }
    } else {
      OneRefusalLeadsAstray(l, s);
      assert !PeerIsKnown(l, s, After(l, s, Empty(), Straying(l, s)));
    }
  }
}
