/** Flow control: a two-mode regulator that has to see good conditions for a penalty time before
    it sends at the high rate. */
module FlowControl {

  const TWO_64: int := 0x1_0000_0000_0000_0000
  const RTT_THRESHOLD: nat := 250
  const MIN_PENALTY: nat := 1000
  const MAX_PENALTY: nat := 60000

  datatype Mode = Good | Bad

  datatype FlowState = FlowState(
    mode: Mode,
    penaltyTime: nat,
    goodConditionsTime: nat,
    penaltyReductionAccumulator: nat)

  const INITIAL: FlowState := FlowState(Bad, 4000, 0, 0)

  function Raised(penalty: nat): nat {
    if penalty * 2 > MAX_PENALTY then MAX_PENALTY else penalty * 2
  }

  function Lowered(penalty: nat): nat {
    if penalty / 2 < MIN_PENALTY then MIN_PENALTY else penalty / 2
  }

  /** One update. Times are unsigned 64-bit sums. */
  function Updated(s: FlowState, deltaTime: nat, rtt: nat): FlowState {
    match s.mode
    case Good =>
      if rtt > RTT_THRESHOLD then
        FlowState(Bad,
                  if s.goodConditionsTime < 10000 && s.penaltyTime < MAX_PENALTY
                  then Raised(s.penaltyTime) else s.penaltyTime,
                  0, 0)
      else
        var reduction := (s.penaltyReductionAccumulator + deltaTime) % TWO_64;
        var reduce := reduction > 10000 && s.penaltyTime > MIN_PENALTY;
        FlowState(Good,
                  if reduce then Lowered(s.penaltyTime) else s.penaltyTime,
                  (s.goodConditionsTime + deltaTime) % TWO_64,
                  if reduce then 0 else reduction)
    case Bad =>
      var good := if rtt <= RTT_THRESHOLD then (s.goodConditionsTime + deltaTime) % TWO_64 else 0;
      if good > s.penaltyTime then FlowState(Good, s.penaltyTime, 0, 0)
      else s.(goodConditionsTime := good)
  }

  /** Packets per second. */
  function RateOf(mode: Mode): nat {
    if mode == Good then 30 else 10
  }

  class FlowController {
    var mode: Mode
    var penaltyTime: nat
    var goodConditionsTime: nat
    var penaltyReductionAccumulator: nat

    ghost function State(): FlowState
      reads this
    {
      FlowState(mode, penaltyTime, goodConditionsTime, penaltyReductionAccumulator)
    }

    constructor ()
      ensures State() == INITIAL
    {
      mode, penaltyTime, goodConditionsTime, penaltyReductionAccumulator := Bad, 4000, 0, 0;
    }

    method Reset()
      modifies this
      ensures State() == INITIAL
    {
      mode, penaltyTime, goodConditionsTime, penaltyReductionAccumulator := Bad, 4000, 0, 0;
    }

    method Update(deltaTime: nat, rtt: nat)
      modifies this
      ensures State() == Updated(old(State()), deltaTime, rtt)
    {
      if mode == Good {
        if rtt > RTT_THRESHOLD {
          mode := Bad;
          if goodConditionsTime < 10000 && penaltyTime < 60000 {
            penaltyTime := penaltyTime * 2;
            if penaltyTime > 60000 {
              penaltyTime := 60000;
            }
          }
          goodConditionsTime := 0;
          penaltyReductionAccumulator := 0;
          return;
        }
        goodConditionsTime := (goodConditionsTime + deltaTime) % TWO_64;
        penaltyReductionAccumulator := (penaltyReductionAccumulator + deltaTime) % TWO_64;
        if penaltyReductionAccumulator > 10000 && penaltyTime > 1000 {
          penaltyTime := penaltyTime / 2;
          if penaltyTime < 1000 {
            penaltyTime := 1000;
          }
          penaltyReductionAccumulator := 0;
        }
      } else {
        if rtt <= RTT_THRESHOLD {
          goodConditionsTime := (goodConditionsTime + deltaTime) % TWO_64;
        } else {
          goodConditionsTime := 0;
        }
        if goodConditionsTime > penaltyTime {
          goodConditionsTime := 0;
          penaltyReductionAccumulator := 0;
          mode := Good;
        }
      }
    }

    method SendRate() returns (rate: nat)
      ensures rate == RateOf(State().mode)
    {
      if mode == Good {
        return 30;
      }
      return 10;
    }
  }

  // Runs

  datatype Event = Update(deltaTime: nat, rtt: nat) | Reset

  function Apply(s: FlowState, e: Event): FlowState {
    match e
    case Update(deltaTime, rtt) => Updated(s, deltaTime, rtt)
    case Reset => INITIAL
  }

  function Run(events: seq<Event>): FlowState {
    if events == [] then INITIAL
    else Apply(Run(events[..|events| - 1]), events[|events| - 1])
  }

  function Time(e: Event): nat {
    match e
    case Update(deltaTime, _) => deltaTime
    case Reset => 0
  }

  function TotalTime(events: seq<Event>): nat {
    if events == [] then 0 else TotalTime(events[..|events| - 1]) + Time(events[|events| - 1])
  }

  /** The last event switched from bad to good. */
  predicate Upgrades(events: seq<Event>) {
    events != [] && Run(events[..|events| - 1]).mode == Bad && Run(events).mode == Good
  }

  function UpgradeCount(events: seq<Event>): nat {
    if events == [] then 0
    else UpgradeCount(events[..|events| - 1]) + if Upgrades(events) then 1 else 0
  }

  lemma {:induction false} PenaltyStaysInBounds(events: seq<Event>)
    ensures 1000 <= Run(events).penaltyTime <= 60000
  {
    if events != [] {
      PenaltyStaysInBounds(events[..|events| - 1]);
    }
  }

  /** Event k is an update under good conditions made in bad mode with penalty `penalty` in force. */
  ghost predicate CalmUpdate(events: seq<Event>, k: nat, penalty: nat)
    requires k < |events|
  {
    && events[k].Update? && events[k].rtt <= 250
    && Run(events[..k]).mode == Bad && Run(events[..k]).penaltyTime == penalty
  }

  /** In bad mode the good-conditions clock never runs ahead of the unbroken calm stretch that
      ends now. */
  lemma {:induction false} CalmStretch(events: seq<Event>) returns (start: nat)
    requires Run(events).mode == Bad
    ensures start <= |events|
    ensures forall k :: start <= k < |events| ==> CalmUpdate(events, k, Run(events).penaltyTime)
    ensures TotalTime(events[start..]) >= Run(events).goodConditionsTime
  {
    start := |events|;
    if events != [] {
      var n := |events| - 1;
      var before, last := events[..n], events[n];
      if Run(before).mode == Bad && last.Update? && last.rtt <= RTT_THRESHOLD {
        start := CalmStretch(before);
        StretchGrows(events, start);
        CalmStays(events, start, Run(before).penaltyTime);
        hide Run, TotalTime, CalmUpdate;
        LastUpdate(events);
      }
    }
  }

  lemma LastUpdate(events: seq<Event>)
    requires events != []
    ensures Run(events) == Apply(Run(events[..|events| - 1]), events[|events| - 1])
  {
  }

  lemma CalmStays(events: seq<Event>, start: nat, penalty: nat)
    requires events != [] && start <= |events| - 1
    requires var before := events[..|events| - 1];
             && (forall k :: start <= k < |before| ==> CalmUpdate(before, k, penalty))
             && Run(before).mode == Bad && Run(before).penaltyTime == penalty
    requires var last := events[|events| - 1];
             last.Update? && last.rtt <= RTT_THRESHOLD
    ensures forall k :: start <= k < |events| ==> CalmUpdate(events, k, penalty)
  {
    var before := events[..|events| - 1];
    forall k | start <= k < |events| ensures CalmUpdate(events, k, penalty) {
      if k < |before| {
        assert events[..k] == before[..k];
        assert CalmUpdate(before, k, penalty);
      }
    }
  }

  lemma StretchGrows(events: seq<Event>, start: nat)
    requires start < |events|
    ensures TotalTime(events[start..]) == TotalTime(events[..|events| - 1][start..]) + Time(events[|events| - 1])
  {
    assert events[start..][..|events[start..]| - 1] == events[..|events| - 1][start..];
  }

  /** Every switch to good follows an unbroken stretch of updates with good round trip times,
      all in bad mode and longer in total than the penalty in force. */
  lemma UpgradeFollowsCalm(events: seq<Event>) returns (start: nat, penalty: nat)
    requires Upgrades(events)
    ensures start < |events| && penalty == Run(events[..|events| - 1]).penaltyTime
    ensures forall k :: start <= k < |events| ==> CalmUpdate(events, k, penalty)
    ensures TotalTime(events[start..]) > penalty
  {
    var before := events[..|events| - 1];
    penalty := Run(before).penaltyTime;
    start := CalmStretch(before);
    CalmStays(events, start, penalty);
    StretchGrows(events, start);
  }

  lemma SamePrefixes(events: seq<Event>, n: nat)
    requires 0 < n < |events|
    ensures var before := events[..|events| - 1];
            before[..n] == events[..n] && before[..n - 1] == events[..n - 1]
  {
  }

  /** From `start` on there are only updates with good round trip times. */
  ghost predicate OnlyGood(events: seq<Event>, start: nat) {
    forall k :: start <= k < |events| ==> events[k].Update? && events[k].rtt <= 250
  }

  lemma OneMoreGood(events: seq<Event>, start: nat)
    requires events != [] && OnlyGood(events[..|events| - 1], start)
    requires events[|events| - 1].Update? && events[|events| - 1].rtt <= 250
    ensures OnlyGood(events, start)
  {
    var before := events[..|events| - 1];
    forall k | start <= k < |events| - 1 ensures events[k].Update? && events[k].rtt <= 250 {
      assert before[k] == events[k];
    }
  }

  lemma JustSwitched(events: seq<Event>) returns (start: nat)
    requires Upgrades(events)
    ensures start < |events|
    ensures TotalTime(events[start..]) > Run(events[..|events| - 1]).penaltyTime
    ensures OnlyGood(events, start)
  {
    hide Run, TotalTime, Upgrades;
    var penalty: nat;
    start, penalty := UpgradeFollowsCalm(events);
    forall k | start <= k < |events| ensures events[k].Update? && events[k].rtt <= 250 {
      assert CalmUpdate(events, k, penalty);
    }
  }

  /** The high rate has been earned: since the last switch to good, which followed a calm stretch
      longer than its penalty, every update had a good round trip time. */
  lemma {:induction false} HighRateIsEarned(events: seq<Event>) returns (switched: nat, start: nat)
    requires RateOf(Run(events).mode) != 10
    ensures RateOf(Run(events).mode) == 30
    ensures start < switched <= |events| && Upgrades(events[..switched])
    ensures TotalTime(events[..switched][start..]) > Run(events[..switched - 1]).penaltyTime
    ensures OnlyGood(events, start)
  {
    hide OnlyGood;
    var before := events[..|events| - 1];
    if Run(before).mode == Good {
      StaysGood(events);
      hide Run, TotalTime, Upgrades;
      switched, start := HighRateIsEarned(before);
      SamePrefixes(events, switched);
      OneMoreGood(events, start);
    } else {
      switched := |events|;
      start := JustSwitched(events);
      assert events[..|events|] == events;
    }
  }

  lemma StaysGood(events: seq<Event>)
    requires events != [] && Run(events[..|events| - 1]).mode == Good && Run(events).mode == Good
    ensures events[|events| - 1].Update? && events[|events| - 1].rtt <= 250
  {
  }

  /** Flow control cannot flap: a run of total time T has at most T / 1001 switches to good. */
  lemma {:induction false} UpgradesTakeTime(events: seq<Event>)
    ensures 1001 * UpgradeCount(events) <= TotalTime(events)
  {
    UpgradesArePaidFor(events);
  }

  lemma ClockNeverGains(clock: nat, deltaTime: nat)
    ensures (clock + deltaTime) % TWO_64 <= clock + deltaTime
  {
  }

  /** One update: the clock of bad mode gains no more than the time that passes, and a switch to
      good uses up more than the least penalty. */
  lemma UpdateIsPaidFor(s: FlowState, deltaTime: nat, rtt: nat)
    requires s.penaltyTime >= MIN_PENALTY
    ensures var t := Updated(s, deltaTime, rtt);
            && (s.mode == Bad && t.mode == Bad ==> t.goodConditionsTime <= s.goodConditionsTime + deltaTime)
            && (s.mode == Bad && t.mode == Good ==> 1001 <= s.goodConditionsTime + deltaTime)
            && (s.mode == Good && t.mode == Bad ==> t.goodConditionsTime == 0)
  {
    ClockNeverGains(s.goodConditionsTime, deltaTime);
  }

  lemma {:induction false} UpgradesArePaidFor(events: seq<Event>)
    ensures 1001 * UpgradeCount(events) + (if Run(events).mode == Bad then Run(events).goodConditionsTime else 0)
            <= TotalTime(events)
  {
    if events != [] {
      var before, last := events[..|events| - 1], events[|events| - 1];
      UpgradesArePaidFor(before);
      PenaltyStaysInBounds(before);
      if last.Update? {
        UpdateIsPaidFor(Run(before), last.deltaTime, last.rtt);
      }
      hide Updated;
    }
  }
}
