/** How the penalty of flow control rises and falls, over whole runs: in terms of how long the current
    stretch of good round trip times has lasted. */
module PenaltyRuns {
  import opened FlowControl

  /** The clocks have 64 bits. */
  const CLOCK_RANGE: nat := 0x1_0000_0000_0000_0000

  /** Where the current stretch begins: after the last event that was a reset, found a slow round
      trip, or switched the mode. */
  function StretchStart(events: seq<Event>): (start: nat)
    ensures start <= |events|
  {
    if events == [] then 0
    else
      var before, last := events[..|events| - 1], events[|events| - 1];
      if last.Update? && last.rtt <= 250 && Run(before).mode == Run(events).mode then StretchStart(before)
      else |events|
  }

  /** Where the penalty has been steady since: the same, but also after its last change. */
  function SteadyStart(events: seq<Event>): (start: nat)
    ensures start <= |events|
  {
    if events == [] then 0
    else
      var before, last := events[..|events| - 1], events[|events| - 1];
      if last.Update? && last.rtt <= 250 && Run(before).mode == Run(events).mode &&
         Run(before).penaltyTime == Run(events).penaltyTime then SteadyStart(before)
      else |events|
  }

  function Stretch(events: seq<Event>): nat {
    TotalTime(events[StretchStart(events)..])
  }

  function Steady(events: seq<Event>): nat {
    TotalTime(events[SteadyStart(events)..])
  }

  lemma NoTime(events: seq<Event>)
    ensures TotalTime(events[|events|..]) == 0
  {
  }

  /** One more event either extends the stretch or ends it. */
  lemma NextStretch(events: seq<Event>)
    requires events != []
    ensures var before, last := events[..|events| - 1], events[|events| - 1];
            && Stretch(events) ==
               (if last.Update? && last.rtt <= 250 && Run(before).mode == Run(events).mode
                then Stretch(before) + last.deltaTime else 0)
            && Steady(events) ==
               (if last.Update? && last.rtt <= 250 && Run(before).mode == Run(events).mode &&
                   Run(before).penaltyTime == Run(events).penaltyTime
                then Steady(before) + last.deltaTime else 0)
  {
    var before := events[..|events| - 1];
    NoTime(events);
    StretchGrows(events, StretchStart(before));
    StretchGrows(events, SteadyStart(before));
    hide Run, TotalTime;
  }

  lemma SumOfRemainders(clock: nat, total: nat, deltaTime: nat)
    requires clock == total % TWO_64
    ensures (clock + deltaTime) % TWO_64 == (total + deltaTime) % TWO_64
  {
  }

  lemma SmallRemainder(n: nat)
    ensures n % TWO_64 <= n && (n < TWO_64 ==> n % TWO_64 == n)
    ensures TWO_64 == CLOCK_RANGE
  {
  }

  lemma {:induction false} ClocksShowTheStretch(events: seq<Event>)
    ensures Run(events).goodConditionsTime == Stretch(events) % TWO_64
    ensures Run(events).mode == Good ==> Run(events).penaltyReductionAccumulator == Steady(events) % TWO_64
  {
    hide Run, Stretch, Steady;
    if events == [] {
      AtTheStart();
    } else {
      var before, last := events[..|events| - 1], events[|events| - 1];
      ClocksShowTheStretch(before);
      NextStretch(events);
      LastUpdate(events);
      SmallRemainder(0);
      if last.Update? {
        OneUpdate(Run(before), last.deltaTime, last.rtt, Stretch(before), Steady(before));
        hide Updated;
      }
    }
  }

  lemma AtTheStart()
    ensures Run([]) == INITIAL && Stretch([]) == 0 == Steady([])
  {
    NoTime([]);
  }

  /** One update, in terms of the times that the clocks show. */
  lemma OneUpdate(s: FlowState, deltaTime: nat, rtt: nat, stretch: nat, steady: nat)
    requires s.goodConditionsTime == stretch % TWO_64
    requires s.mode == Good ==> s.penaltyReductionAccumulator == steady % TWO_64
    ensures var t, p := Updated(s, deltaTime, rtt), s.penaltyTime;
            && (t.mode == Good <==> rtt <= 250 && (s.mode == Good || (stretch + deltaTime) % TWO_64 > p))
            && t.penaltyTime ==
               (if s.mode == Bad then p
                else if rtt > 250 then if stretch % TWO_64 < 10000 && p < 60000 then Raised(p) else p
                else if (steady + deltaTime) % TWO_64 > 10000 && p > 1000 then Lowered(p) else p)
            && t.goodConditionsTime ==
               (if rtt <= 250 && s.mode == t.mode then (stretch + deltaTime) % TWO_64 else 0)
            && (t.mode == Good ==>
                  t.penaltyReductionAccumulator ==
                  (if s.mode == Good && t.penaltyTime == p then (steady + deltaTime) % TWO_64 else 0))
  {
    SumOfRemainders(s.goodConditionsTime, stretch, deltaTime);
    if s.mode == Good {
      SumOfRemainders(s.penaltyReductionAccumulator, steady, deltaTime);
    }
  }

  lemma UpdateAtTheEnd(events: seq<Event>, deltaTime: nat, rtt: nat)
    ensures Run(events + [Update(deltaTime, rtt)]) == Updated(Run(events), deltaTime, rtt)
  {
    var all := events + [Update(deltaTime, rtt)];
    assert all[..|all| - 1] == events;
    LastUpdate(all);
    hide Run, Updated;
  }

  /** When the mode switches: to bad at exactly the slow round trips, and to good exactly when the
      stretch has become longer than the penalty. */
  lemma ModeSwitchesExactly(events: seq<Event>, deltaTime: nat, rtt: nat)
    ensures var before, after := Run(events), Run(events + [Update(deltaTime, rtt)]);
            after.mode == Good <==>
              rtt <= 250 && (before.mode == Good || (Stretch(events) + deltaTime) % CLOCK_RANGE > before.penaltyTime)
  {
    hide Run, Stretch, Steady, Updated;
    UpdateAtTheEnd(events, deltaTime, rtt);
    ClocksShowTheStretch(events);
    OneUpdate(Run(events), deltaTime, rtt, Stretch(events), Steady(events));
  }

  /** How the penalty changes: a drop to bad doubles it, up to 60000, exactly when the stretch in good
      mode was shorter than 10000; and good mode halves it, down to 1000, exactly when it has been
      steady there for longer than 10000. */
  lemma PenaltyChangesExactly(events: seq<Event>, deltaTime: nat, rtt: nat)
    ensures var before, after := Run(events), Run(events + [Update(deltaTime, rtt)]);
            var p := before.penaltyTime;
            after.penaltyTime ==
              if before.mode == Bad then p
              else if rtt > 250 then
                if Stretch(events) % CLOCK_RANGE >= 10000 then p else if 2 * p > 60000 then 60000 else 2 * p
              else
                if (Steady(events) + deltaTime) % CLOCK_RANGE <= 10000 then p else if p < 2000 then 1000 else p / 2
  {
    hide Run, Stretch, Steady, Updated;
    UpdateAtTheEnd(events, deltaTime, rtt);
    ClocksShowTheStretch(events);
    PenaltyStaysInBounds(events);
    OneUpdate(Run(events), deltaTime, rtt, Stretch(events), Steady(events));
  }

  // Many drops in a row

  ghost function Twice(n: nat): nat {
    if n == 0 then 1 else 2 * Twice(n - 1)
  }

  /** The last event dropped from good to bad. */
  predicate Drops(events: seq<Event>) {
    events != [] && events[|events| - 1].Update? &&
    Run(events[..|events| - 1]).mode == Good && Run(events).mode == Bad
  }

  /** From event m on there is no reset, and every drop comes less than 10000 after the switch to good
      before it. */
  predicate OnlyQuickDrops(events: seq<Event>, m: nat) {
    |events| <= m ||
    (&& events[|events| - 1].Update?
     && (Drops(events) ==> Stretch(events[..|events| - 1]) < 10000)
     && OnlyQuickDrops(events[..|events| - 1], m))
  }

  function DropCount(events: seq<Event>, m: nat): nat {
    if |events| <= m then 0
    else DropCount(events[..|events| - 1], m) + if Drops(events) then 1 else 0
  }

  /** The penalty `p` doubled `n` times. */
  ghost function Doubled(p: nat, n: nat): nat {
    if p * Twice(n) > 60000 then 60000 else p * Twice(n)
  }

  lemma DoubledOnceMore(p: nat, n: nat)
    ensures Doubled(p, n + 1) == if 2 * Doubled(p, n) > 60000 then 60000 else 2 * Doubled(p, n)
  {
    assert p * Twice(n + 1) == 2 * (p * Twice(n));
  }

  lemma NotDoubled(p: nat)
    requires p <= 60000
    ensures Doubled(p, 0) == p
  {
    assert p * Twice(0) == p;
  }

  lemma {:induction false} SteadyIsWithinStretch(events: seq<Event>)
    ensures Steady(events) <= Stretch(events)
  {
    if events == [] {
    } else {
      SteadyIsWithinStretch(events[..|events| - 1]);
      NextStretch(events);
      hide Run, Stretch, Steady;
    }
  }

  lemma {:induction false} QuickDropsDouble(events: seq<Event>, m: nat)
    requires m <= |events| && Run(events[..m]).mode == Bad && OnlyQuickDrops(events, m)
    ensures Run(events).mode == Bad || Stretch(events) < 10000 ==>
      Run(events).penaltyTime == Doubled(Run(events[..m]).penaltyTime, DropCount(events, m))
  {
    hide Run, Stretch, Steady, Doubled;
    var p := Run(events[..m]).penaltyTime;
    if |events| == m {
      assert events[..m] == events;
      PenaltyStaysInBounds(events);
      NotDoubled(p);
    } else {
      var before, last := events[..|events| - 1], events[|events| - 1];
      assert before[..m] == events[..m] && events == before + [Update(last.deltaTime, last.rtt)];
      QuickDropsDouble(before, m);
      NextStretch(events);
      SteadyIsWithinStretch(before);
      PenaltyChangesExactly(before, last.deltaTime, last.rtt);
      ModeSwitchesExactly(before, last.deltaTime, last.rtt);
      DoubledOnceMore(p, DropCount(before, m));
      SmallRemainder(Stretch(before));
      SmallRemainder(Steady(before) + last.deltaTime);
    }
  }

  /** Flapping is punished: after n quick drops in a row, beginning in bad mode with penalty p, the
      next switch to good follows an unbroken stretch of updates in bad mode, with good round trip
      times, of more than min(60000, p * 2^n). From the start p is 4000. */
  lemma QuickDropsMustBeWaitedOut(events: seq<Event>, m: nat) returns (start: nat)
    requires m < |events| && Upgrades(events)
    requires var before := events[..|events| - 1];
             Run(before[..m]).mode == Bad && OnlyQuickDrops(before, m)
    ensures var before := events[..|events| - 1];
            var p, n := Run(before[..m]).penaltyTime, DropCount(before, m);
            && start < |events|
            && (forall k :: start <= k < |events| ==> CalmUpdate(events, k, Run(before).penaltyTime))
            && TotalTime(events[start..]) > (if p * Twice(n) > 60000 then 60000 else p * Twice(n))
            && (m == 0 ==> p == 4000)
  {
    var before := events[..|events| - 1];
    QuickDropsDouble(before, m);
    var penalty: nat;
    start, penalty := UpgradeFollowsCalm(events);
    assert m == 0 ==> before[..m] == [];
    hide OnlyQuickDrops, DropCount, TotalTime, CalmUpdate, Twice;
  }

  // A long stretch

  /** The penalty `p` halved `n` times. */
  ghost function Halved(p: nat, n: nat): nat {
    if n == 0 then p else if Halved(p, n - 1) < 2000 then 1000 else Halved(p, n - 1) / 2
  }

  lemma LastOfGood(events: seq<Event>)
    requires Run(events).mode == Good
    ensures events != [] && events[|events| - 1].Update?
    ensures var before, last := events[..|events| - 1], events[|events| - 1];
            && events == before + [Update(last.deltaTime, last.rtt)] && last.rtt <= 250
            && StretchStart(events) == if Run(before).mode == Good then StretchStart(before) else |events|
  {
    var before, last := events[..|events| - 1], events[|events| - 1];
    ModeSwitchesExactly(before, last.deltaTime, last.rtt);
    assert events == before + [Update(last.deltaTime, last.rtt)];
    hide Stretch;
  }

  /** Good behaviour is rewarded: in good mode the penalty is that of the switch to good, halved some
      number of times. Each time took more than 10000, and once the stretch is longer than 10000 it
      was at least once, as long as the 64 bits of the clock hold the stretch. */
  lemma {:induction false} GoodStretchesHalve(events: seq<Event>) returns (n: nat)
    requires Run(events).mode == Good
    ensures Upgrades(events[..StretchStart(events)])
    ensures Run(events).penaltyTime == Halved(Run(events[..StretchStart(events)]).penaltyTime, n)
    ensures 10000 * n <= Stretch(events) - Steady(events) && (n > 0 ==> 10000 * n < Stretch(events))
    ensures 10000 < Stretch(events) < CLOCK_RANGE ==> n > 0 || Run(events).penaltyTime == 1000
    ensures n == 0 ==> Steady(events) == Stretch(events)
  {
    hide Run, Stretch, Steady, StretchStart;
    LastOfGood(events);
    var before, last := events[..|events| - 1], events[|events| - 1];
    NextStretch(events);
    PenaltyChangesExactly(before, last.deltaTime, last.rtt);
    PenaltyStaysInBounds(before);
    if Run(before).mode == Bad {
      n := 0;
      assert events[..|events|] == events;
    } else {
      n := GoodStretchesHalve(before);
      assert before[..StretchStart(before)] == events[..StretchStart(before)];
      SmallRemainder(Steady(before) + last.deltaTime);
      if Run(events).penaltyTime != Run(before).penaltyTime {
        n := n + 1;
      }
    }
  }
}
