/** The handshake state machine of one session, and the duel that settles who initiates. */
module Handshakes {
  import opened HandshakePackets

  datatype Step = SYN | SYN_ACK | ACK | NONE

  function StepOf(multimagic: nat): Step {
    if multimagic == MULTIMAGIC_SYN then SYN
    else if multimagic == MULTIMAGIC_SYNACK then SYN_ACK
    else if multimagic == MULTIMAGIC_ACK then ACK
    else NONE
  }

  type StepCounter = c: nat | c < 256

  datatype HandshakeView = HandshakeView(initiator: bool, stepCounter: StepCounter, atLeastOneSend: bool)

  function ExpectedTX(v: HandshakeView): Step {
    if v.initiator then
      if v.stepCounter == 0 then SYN else if v.stepCounter == 2 then ACK else NONE
    else
      if v.stepCounter == 1 then SYN_ACK else NONE
  }

  function ExpectedRX(v: HandshakeView): Step {
    if v.initiator then
      if v.stepCounter == 1 then SYN_ACK else NONE
    else
      if v.stepCounter == 0 then SYN
      else if v.stepCounter == 1 then (if v.atLeastOneSend then ACK else NONE)
      else if v.stepCounter == 2 then ACK
      else NONE
  }

  /** The steps are numbered from SYN = 0, and the code tests the number of the expected step. */
  predicate IsZero(s: Step) {
    s == SYN
  }

  predicate IsDone(v: HandshakeView) {
    ExpectedTX(v) == NONE && IsZero(ExpectedRX(v))
  }

  function AfterTX(v: HandshakeView, step: Step): HandshakeView {
    if step != NONE && ExpectedTX(v) == step then v.(atLeastOneSend := true) else v
  }

  /** Only the counters 0, 1 and 2 expect anything, so the counter never passes 3. */
  function AfterRX(v: HandshakeView, step: Step): HandshakeView {
    if step != NONE && ExpectedRX(v) == step then v.(atLeastOneSend := false, stepCounter := v.stepCounter + 1)
    else v
  }

  class HandshakeState {
    var mInitiator: bool
    var mStepCounter: StepCounter
    var mAtLeastOneSend: bool

    ghost function View(): HandshakeView
      reads this
    {
      HandshakeView(mInitiator, mStepCounter, mAtLeastOneSend)
    }

    constructor (initiator: bool)
      ensures View() == HandshakeView(initiator, 0, false)
    {
      mInitiator, mStepCounter, mAtLeastOneSend := initiator, 0, false;
    }

    method ExpectedStepTX() returns (step: Step)
      ensures step == ExpectedTX(View())
    {
      if mInitiator {
        if mStepCounter == 0 {
          return SYN;
        } else if mStepCounter == 2 {
          return ACK;
        }
      } else if mStepCounter == 1 {
        return SYN_ACK;
      }
      return NONE;
    }

    method ExpectedStepRX() returns (step: Step)
      ensures step == ExpectedRX(View())
    {
      step := NONE;
      if mInitiator {
        if mStepCounter == 1 {
          step := SYN_ACK;
        }
      } else if mStepCounter == 0 {
        step := SYN;
      } else if mStepCounter == 1 {
        step := if mAtLeastOneSend then ACK else NONE;
      } else if mStepCounter == 2 {
        step := ACK;
      }
    }

    method Done() returns (done: bool)
      ensures done == IsDone(View())
    {
      var tx := ExpectedStepTX();
      var rx := ExpectedStepRX();
      done := tx == NONE && IsZero(rx);
    }

    method HandleTX(step: Step) returns (ok: bool)
      modifies this
      ensures View() == AfterTX(old(View()), step)
      ensures ok == (step != NONE && ExpectedTX(old(View())) == step)
    {
      if step == NONE {
        return false;
      }
      var expected := ExpectedStepTX();
      ok := expected == step;
      if ok {
        mAtLeastOneSend := true;
      }
    }

    method HandleRX(step: Step) returns (ok: bool)
      modifies this
      ensures View() == AfterRX(old(View()), step)
      ensures ok == (step != NONE && ExpectedRX(old(View())) == step)
    {
      if step == NONE {
        return false;
      }
      var expected := ExpectedStepRX();
      ok := expected == step;
      if ok {
        mAtLeastOneSend := false;
        mStepCounter := mStepCounter + 1;
      }
    }

    method SetInitiator(initiator: bool)
      modifies this
      ensures View() == old(View()).(initiator := initiator)
    {
      mInitiator := initiator;
    }
  }

  /** The code calls a handshake done exactly when it has not begun: the session waits, as the
      adherent, for its first SYN. */
  lemma DoneMeansNotBegun(v: HandshakeView)
    ensures IsDone(v) <==> !v.initiator && v.stepCounter == 0
    ensures IsDone(v) ==> ExpectedRX(v) == SYN
  {
  }

  /** At each counter at most one of the two roles has something to send; a step received moves the
      counter by one at most, and a session whose counter has reached 3 takes no step any more. */
  lemma StepsAlternate(v: HandshakeView, step: Step)
    ensures AfterRX(v, step).stepCounter <= v.stepCounter + 1
    ensures v.stepCounter >= 3 ==> AfterTX(v, step) == v && AfterRX(v, step) == v
    ensures ExpectedTX(v) != NONE ==> ExpectedTX(v.(initiator := !v.initiator)) == NONE
  {
  }

  /** The steps of the exchange, by the counter at which each is taken. */
  const EXCHANGE: seq<Step> := [SYN, SYN_ACK, ACK]

  /** A session follows the exchange: the initiator speaks at the even counters and listens at the
      odd one, the adherent the other way round. Two things fall outside: an adherent at counter 1
      that has spoken waits for the ACK there already, and the initiator listens for nothing at
      counter 0, so that no packet ever takes it further. */
  lemma SessionsFollowTheExchange(v: HandshakeView, step: Step)
    ensures ExpectedTX(v) ==
            if v.stepCounter < 3 && v.initiator == (v.stepCounter % 2 == 0) then EXCHANGE[v.stepCounter] else NONE
    ensures ExpectedRX(v) ==
            if v.stepCounter < 3 && v.initiator == (v.stepCounter % 2 == 1) then EXCHANGE[v.stepCounter]
            else if !v.initiator && v.stepCounter == 1 && v.atLeastOneSend then ACK
            else NONE
    ensures v.initiator && v.stepCounter == 0 ==> AfterRX(v, step) == v
    ensures AfterTX(v, step).initiator == v.initiator && AfterTX(v, step).stepCounter == v.stepCounter
    ensures AfterTX(v, step).atLeastOneSend <==> v.atLeastOneSend || (step != NONE && step == ExpectedTX(v))
    ensures step == NONE || step != ExpectedRX(v) ==> AfterRX(v, step) == v
    ensures step != NONE && step == ExpectedRX(v) ==>
      AfterRX(v, step) == HandshakeView(v.initiator, v.stepCounter + 1, false)
  {
  }

  // The duel

  /** The first text comes after the second in the order of their characters, a longer text
      after its own beginnings. Every full id is ASCII, where this is the order of the bytes. */
  predicate Beats(a: string, b: string) {
    if a == "" then false
    else if b == "" then true
    else if a[0] == b[0] then Beats(a[1..], b[1..])
    else a[0] > b[0]
  }

  ghost predicate ComesAfterAt(a: string, b: string, k: nat) {
    && k <= |a| && k <= |b| && a[..k] == b[..k]
    && k < |a| && (k < |b| ==> a[k] > b[k])
  }

  /** At the first place where the texts differ the first one has the larger character, or the
      second one has ended. */
  ghost predicate ComesAfter(a: string, b: string) {
    exists k: nat :: ComesAfterAt(a, b, k)
  }

  lemma {:induction false} FirstDifferenceDecides(a: string, b: string)
    ensures Beats(a, b) <==> ComesAfter(a, b)
  {
    forall k: nat | ComesAfterAt(a, b, k) && k > 0 ensures a != "" && b != "" && a[0] == b[0] {
      assert a[..k][0] == b[..k][0];
    }
    if a != "" && b != "" && a[0] == b[0] {
      FirstDifferenceDecides(a[1..], b[1..]);
      if ComesAfter(a, b) {
        var k: nat :| ComesAfterAt(a, b, k);
        assert a[..k][1..] == a[1..][..k - 1] && b[..k][1..] == b[1..][..k - 1];
        assert ComesAfterAt(a[1..], b[1..], k - 1);
      }
      if Beats(a[1..], b[1..]) {
        var k: nat :| ComesAfterAt(a[1..], b[1..], k);
        assert a[..k + 1] == [a[0]] + a[1..][..k] && b[..k + 1] == [b[0]] + b[1..][..k];
        assert ComesAfterAt(a, b, k + 1);
      }
    } else if Beats(a, b) {
      assert ComesAfterAt(a, b, 0);
    }
  }

  class IDDuel {
    const mIDA: string
    const mIDB: string

    constructor (a: string, b: string)
      ensures mIDA == a && mIDB == b
    {
      mIDA, mIDB := a, b;
    }

    /** Byte by byte from the front, as the comparison of byte arrays does. */
    method Duel() returns (win: bool)
      ensures win == Beats(mIDA, mIDB)
      ensures win <==> ComesAfter(mIDA, mIDB)
    {
      FirstDifferenceDecides(mIDA, mIDB);
      hide ComesAfter;
      var i := 0;
      while i < |mIDA| && i < |mIDB| && mIDA[i] == mIDB[i]
        invariant i <= |mIDA| && i <= |mIDB|
        invariant Beats(mIDA, mIDB) == Beats(mIDA[i..], mIDB[i..])
      {
        i := i + 1;
      }
      if i == |mIDA| {
        return false;
      } else if i == |mIDB| {
        return true;
      }
      return mIDA[i] > mIDB[i];
    }
  }

  /** Of two different ids exactly one wins: both nodes come to the same verdict. */
  lemma {:induction false} OneSideWins(a: string, b: string)
    ensures !(Beats(a, b) && Beats(b, a))
    ensures a != b <==> Beats(a, b) || Beats(b, a)
  {
    if a != "" && b != "" && a[0] == b[0] {
      OneSideWins(a[1..], b[1..]);
      assert a == [a[0]] + a[1..] && b == [b[0]] + b[1..];
    }
  }

  /** Winning is transitive, so with any number of nodes there is one order of ids. */
  lemma {:induction false} WinningIsTransitive(a: string, b: string, c: string)
    requires Beats(a, b) && Beats(b, c)
    ensures Beats(a, c)
  {
    if c != "" && a[0] == b[0] == c[0] {
      WinningIsTransitive(a[1..], b[1..], c[1..]);
    }
  }
}
