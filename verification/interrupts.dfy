/** The compare-match interrupt (pHandleInterrupts) as one pure step over one
    timer, the hardware calling it repeatedly while the timer runs, and the
    number of pulses a started timer emits. */
module Interrupts {
  import opened PulseTypes
  import opened Lifecycle

  /** The digitalWrite loop: members i..n-1 in order get `level`. */
  function WriteMembers(pins: map<u8, Level>, ptrains: seq<PTrain>, idxs: seq<u8>,
                        i: nat, n: nat, level: Level): (r: map<u8, Level>)
    requires n <= |idxs|
    requires forall k :: 0 <= k < n ==> idxs[k] < |ptrains|
    ensures PinsAt(r, WrittenPins(ptrains, idxs, i, n), level)
    ensures PinsKeptOutside(r, pins, WrittenPins(ptrains, idxs, i, n))
    decreases n - i
  {
    if i >= n then
      assert WrittenPins(ptrains, idxs, i, n) == {};
      pins
    else
      var pin := ptrains[idxs[i]].pin;
      assert WrittenPins(ptrains, idxs, i, n) == {pin} + WrittenPins(ptrains, idxs, i + 1, n) by {
        forall p | p in WrittenPins(ptrains, idxs, i, n)
          ensures p in {pin} + WrittenPins(ptrains, idxs, i + 1, n)
        {
          var k :| i <= k < n && ptrains[idxs[k]].pin == p;
          if k > i {
            assert p in WrittenPins(ptrains, idxs, i + 1, n);
          }
        }
      }
      WriteMembers(pins[pin := level], ptrains, idxs, i + 1, n, level)
  }

  /** All member pins of timer `t` written with `level`. */
  function WriteTimerPins(lib: Lib, t: TimerId, level: Level): (r: map<u8, Level>)
    requires Valid(lib)
    ensures PinsAt(r, MemberPins(lib, t), level)
    ensures PinsKeptOutside(r, lib.pins, MemberPins(lib, t))
  {
    var c := lib.timers[t];
    WriteMembers(lib.pins, lib.ptrains, c.ptrainIdxs, 0, c.numberOfPtrains, level)
  }

  /** The hardware raises the compare interrupt of `t` only while the timer
      counts and the interrupt is enabled. */
  predicate Fires(lib: Lib, t: TimerId)
    requires Valid(lib)
  {
    lib.hw[t].compareIrq && lib.hw[t].divisor != 0
  }

  /** What a step may change of timer `t`'s record: the period count and the state. */
  predicate StepFrame(a: Lib, b: Lib, t: TimerId)
    requires Valid(a) && Valid(b)
  {
    && b.ptrains == a.ptrains
    && b.ptrainCount == a.ptrainCount
    && b.outputs == a.outputs
    && (forall u :: 0 <= u < NUMBER_OF_16BIT_TIMERS && u != t ==> b.timers[u] == a.timers[u] && b.hw[u] == a.hw[u])
    && b.timers[t] == a.timers[t].(numberOfPeriods := b.timers[t].numberOfPeriods,
                                   pulsedState := b.timers[t].pulsedState)
  }

  /** pHandleInterrupts for timer `t`.
      PPULSE_LO: counter cleared, member pins HIGH, state PPULSE_HI, one more
      period, compare target the pulse ticks.
      PPULSE_HI: member pins LOW, state PPULSE_LO, the timer stopped iff the
      period count has reached the limit, compare target the period ticks.
      PDC_RUNNING: counter cleared, one more period; on reaching the limit the
      member pins go LOW and the timer stops.
      PDC_INIT and every other value (POFF included, through the `default`
      label): counter cleared, member pins HIGH, state PDC_RUNNING, compare
      target the pulse ticks. */
  function HandleInterrupt(lib: Lib, t: TimerId): (r: Lib)
    requires Valid(lib)
    ensures Valid(r)
    ensures StepFrame(lib, r, t)
    ensures var c, h := lib.timers[t], lib.hw[t];
            c.pulsedState == PPULSE_LO ==>
              && PinsAt(r.pins, MemberPins(lib, t), High)
              && PinsKeptOutside(r.pins, lib.pins, MemberPins(lib, t))
              && r.timers[t].pulsedState == PPULSE_HI
              && r.timers[t].numberOfPeriods == Wrap16(c.numberOfPeriods + 1)
              && r.hw[t] == h.(counter := 0, compareTarget := c.pulseCounts)
    ensures var c, h := lib.timers[t], lib.hw[t];
            c.pulsedState == PPULSE_HI ==>
              && PinsAt(r.pins, MemberPins(lib, t), Low)
              && PinsKeptOutside(r.pins, lib.pins, MemberPins(lib, t))
              && r.timers[t].pulsedState == PPULSE_LO
              && r.timers[t].numberOfPeriods == c.numberOfPeriods
              && r.hw[t].compareTarget == c.periodCounts
              && r.hw[t].counter == h.counter
              && (c.numberOfPeriods < c.periodNumLimit ==> r.hw[t] == h.(compareTarget := c.periodCounts))
              && (c.numberOfPeriods >= c.periodNumLimit ==> !IsTimerActive(r, t) && !r.hw[t].compareIrq)
    ensures var c, h := lib.timers[t], lib.hw[t];
            var periods := Wrap16(c.numberOfPeriods + 1);
            c.pulsedState == PDC_RUNNING ==>
              && r.timers[t].pulsedState == PDC_RUNNING
              && r.timers[t].numberOfPeriods == periods
              && r.hw[t].counter == 0
              && r.hw[t].compareTarget == h.compareTarget
              && (periods >= c.periodNumLimit ==>
                    && PinsAt(r.pins, MemberPins(lib, t), Low)
                    && PinsKeptOutside(r.pins, lib.pins, MemberPins(lib, t))
                    && !IsTimerActive(r, t) && !r.hw[t].compareIrq)
              && (periods < c.periodNumLimit ==> r.pins == lib.pins && r.hw[t] == h.(counter := 0))
    ensures var c, h := lib.timers[t], lib.hw[t];
            c.pulsedState !in {PPULSE_LO, PPULSE_HI, PDC_RUNNING} ==>
              && PinsAt(r.pins, MemberPins(lib, t), High)
              && PinsKeptOutside(r.pins, lib.pins, MemberPins(lib, t))
              && r.timers[t].pulsedState == PDC_RUNNING
              && r.timers[t].numberOfPeriods == c.numberOfPeriods
              && r.hw[t] == h.(counter := 0, compareTarget := c.pulseCounts)
  {
    var c := lib.timers[t];
    var h := lib.hw[t];
    if c.pulsedState == PPULSE_LO then
      lib.(pins := WriteTimerPins(lib, t, High),
           timers := lib.timers[t := c.(pulsedState := PPULSE_HI, numberOfPeriods := Wrap16(c.numberOfPeriods + 1))],
           hw := lib.hw[t := h.(counter := 0, compareTarget := c.pulseCounts)])
    else if c.pulsedState == PPULSE_HI then
      var lowered := lib.(pins := WriteTimerPins(lib, t, Low),
                          timers := lib.timers[t := c.(pulsedState := PPULSE_LO)]);
      var checked := if c.numberOfPeriods >= c.periodNumLimit then StopTimer(lowered, t).lib else lowered;
      checked.(hw := checked.hw[t := checked.hw[t].(compareTarget := c.periodCounts)])
    else if c.pulsedState == PDC_RUNNING then
      var counted := lib.(timers := lib.timers[t := c.(numberOfPeriods := Wrap16(c.numberOfPeriods + 1))],
                          hw := lib.hw[t := h.(counter := 0)]);
      if counted.timers[t].numberOfPeriods >= c.periodNumLimit then
        StopTimer(counted.(pins := WriteTimerPins(lib, t, Low)), t).lib
      else
        counted
    else
      lib.(pins := WriteTimerPins(lib, t, High),
           timers := lib.timers[t := c.(pulsedState := PDC_RUNNING)],
           hw := lib.hw[t := h.(counter := 0, compareTarget := c.pulseCounts)])
  }

  /** Whether the step taken in `state` drives the member pins HIGH. */
  predicate RaisesPins(state: u8) {
    state != PPULSE_HI && state != PDC_RUNNING
  }

  /** A run of interrupts: final state, number of steps that drove the member
      pins HIGH, and number of steps taken. */
  datatype Trace = Trace(lib: Lib, highs: nat, steps: nat)

  /** The hardware calling pHandleInterrupts for `t` as long as the timer
      fires, at most `fuel` times. */
  function Run(lib: Lib, t: TimerId, fuel: nat): (r: Trace)
    requires Valid(lib)
    ensures Valid(r.lib)
    ensures r.steps <= fuel && r.highs <= r.steps
    ensures r.steps < fuel ==> !Fires(r.lib, t)
    ensures r.steps > 0 ==> Fires(lib, t)
    ensures r.lib.ptrains == lib.ptrains
    ensures Members(r.lib.timers[t]) == Members(lib.timers[t])
    ensures MemberPins(r.lib, t) == MemberPins(lib, t)
    decreases fuel
  {
    if fuel == 0 || !Fires(lib, t) then Trace(lib, 0, 0)
    else
      var rest := Run(HandleInterrupt(lib, t), t, fuel - 1);
      Trace(rest.lib, rest.highs + (if RaisesPins(lib.timers[t].pulsedState) then 1 else 0), rest.steps + 1)
  }

  function Max(a: int, b: int): int {
    if a >= b then a else b
  }

  /** One pulse period in pulse mode: the PPULSE_LO step and the PPULSE_HI
      step after it count one period, leave the member pins LOW and the
      state back at PPULSE_LO; the timer fires on iff the limit is not yet
      reached. */
  lemma PulsePeriod(lib: Lib, t: TimerId)
    requires Valid(lib) && Fires(lib, t)
    requires lib.timers[t].pulsedState == PPULSE_LO
    requires lib.timers[t].numberOfPeriods + 1 < 0x1_0000
    ensures var c := lib.timers[t];
            var s1 := HandleInterrupt(lib, t);
            var s2 := HandleInterrupt(s1, t);
            && Fires(s1, t) && RaisesPins(lib.timers[t].pulsedState) && !RaisesPins(s1.timers[t].pulsedState)
            && s2.timers[t].numberOfPeriods == c.numberOfPeriods + 1
            && s2.timers[t].periodNumLimit == c.periodNumLimit
            && s2.timers[t].pulsedState == PPULSE_LO
            && MemberPins(s2, t) == MemberPins(lib, t)
            && PinsAt(s2.pins, MemberPins(lib, t), Low)
            && (Fires(s2, t) <==> c.numberOfPeriods + 1 < c.periodNumLimit)
            && (!Fires(s2, t) ==> !IsTimerActive(s2, t))
  {
    var s1 := HandleInterrupt(lib, t);
    assert s1.timers[t].numberOfPeriods == lib.timers[t].numberOfPeriods + 1;
    assert MemberPins(s1, t) == MemberPins(lib, t);
  }

  /** Two firing interrupts in a row: the run is those two steps followed by
      the run from the state they reach. */
  lemma RunTwoSteps(lib: Lib, t: TimerId, fuel: nat)
    requires Valid(lib) && fuel >= 2 && Fires(lib, t) && Fires(HandleInterrupt(lib, t), t)
    ensures var s1 := HandleInterrupt(lib, t);
            var rest := Run(HandleInterrupt(s1, t), t, fuel - 2);
            var bonus := (if RaisesPins(lib.timers[t].pulsedState) then 1 else 0)
                         + (if RaisesPins(s1.timers[t].pulsedState) then 1 else 0);
            Run(lib, t, fuel) == Trace(rest.lib, rest.highs + bonus, rest.steps + 2)
  {
  }

  /** A pulse-mode run from PPULSE_LO given at least 2k interrupts, where
      k = max(limit - p, 1): it emits k HIGH pulses in 2k steps and stops with
      the period count at p + k and the member pins LOW. */
  lemma {:induction false} PulseModeFinishes(lib: Lib, t: TimerId, k: nat, fuel: nat)
    requires Valid(lib) && Fires(lib, t)
    requires lib.timers[t].pulsedState == PPULSE_LO
    requires k == Max(lib.timers[t].periodNumLimit - lib.timers[t].numberOfPeriods, 1)
    requires lib.timers[t].numberOfPeriods + k < 0x1_0000
    requires fuel >= 2 * k
    ensures var r := Run(lib, t, fuel);
            && r.steps == 2 * k && r.highs == k
            && !IsTimerActive(r.lib, t)
            && r.lib.timers[t].numberOfPeriods == lib.timers[t].numberOfPeriods + k
            && r.lib.timers[t].pulsedState == PPULSE_LO
            && PinsAt(r.lib.pins, MemberPins(lib, t), Low)
    decreases k
  {
    PulsePeriod(lib, t);
    var s2 := HandleInterrupt(HandleInterrupt(lib, t), t);
    RunTwoSteps(lib, t, fuel);
    if k > 1 {
      PulseModeFinishes(s2, t, k - 1, fuel - 2);
    }
  }

  /** A pulse-mode run from PPULSE_LO cut short before 2k interrupts: the
      timer still fires and every other step, starting with the first, was
      a HIGH one. */
  lemma {:induction false} PulseModeCutShort(lib: Lib, t: TimerId, k: nat, fuel: nat)
    requires Valid(lib) && Fires(lib, t)
    requires lib.timers[t].pulsedState == PPULSE_LO
    requires k == Max(lib.timers[t].periodNumLimit - lib.timers[t].numberOfPeriods, 1)
    requires lib.timers[t].numberOfPeriods + k < 0x1_0000
    requires fuel < 2 * k
    ensures var r := Run(lib, t, fuel);
            Fires(r.lib, t) && r.steps == fuel && r.highs == (fuel + 1) / 2
    decreases k
  {
    if fuel > 0 {
      PulsePeriod(lib, t);
      if fuel > 1 {
        RunTwoSteps(lib, t, fuel);
        PulseModeCutShort(HandleInterrupt(HandleInterrupt(lib, t), t), t, k - 1, fuel - 2);
      }
    }
  }

  /** Pulse mode from PPULSE_LO with `p` periods done: the run emits
      k = max(limit - p, 1) HIGH pulses in 2k steps and then stops, with the
      period count at p + k and the member pins LOW. Before that the timer
      keeps firing and every other step is a HIGH one. */
  lemma PulseModeRun(lib: Lib, t: TimerId, k: nat, fuel: nat)
    requires Valid(lib) && Fires(lib, t)
    requires lib.timers[t].pulsedState == PPULSE_LO
    requires k == Max(lib.timers[t].periodNumLimit - lib.timers[t].numberOfPeriods, 1)
    requires lib.timers[t].numberOfPeriods + k < 0x1_0000
    ensures var r := Run(lib, t, fuel);
            && (fuel < 2 * k ==> Fires(r.lib, t) && r.steps == fuel && r.highs == (fuel + 1) / 2)
            && (fuel >= 2 * k ==>
                  && r.steps == 2 * k && r.highs == k
                  && !IsTimerActive(r.lib, t)
                  && r.lib.timers[t].numberOfPeriods == lib.timers[t].numberOfPeriods + k
                  && r.lib.timers[t].pulsedState == PPULSE_LO
                  && PinsAt(r.lib.pins, MemberPins(lib, t), Low))
  {
    if fuel < 2 * k {
      PulseModeCutShort(lib, t, k, fuel);
    } else {
      PulseModeFinishes(lib, t, k, fuel);
    }
  }

  /** Continuous mode in PDC_RUNNING with `p` periods done: the run takes
      k = max(limit - p, 1) steps, leaves the pins alone until the last one,
      which drives them LOW and stops the timer at period count p + k. */
  lemma {:induction false} ContinuousModeRun(lib: Lib, t: TimerId, k: nat, fuel: nat)
    requires Valid(lib) && Fires(lib, t)
    requires lib.timers[t].pulsedState == PDC_RUNNING
    requires k == Max(lib.timers[t].periodNumLimit - lib.timers[t].numberOfPeriods, 1)
    requires lib.timers[t].numberOfPeriods + k < 0x1_0000
    ensures var r := Run(lib, t, fuel);
            && r.highs == 0
            && (fuel < k ==> Fires(r.lib, t) && r.steps == fuel && r.lib.pins == lib.pins)
            && (fuel >= k ==>
                  && r.steps == k
                  && !IsTimerActive(r.lib, t)
                  && r.lib.timers[t].numberOfPeriods == lib.timers[t].numberOfPeriods + k
                  && PinsAt(r.lib.pins, MemberPins(lib, t), Low))
    decreases k
  {
    if fuel > 0 {
      var s1 := HandleInterrupt(lib, t);
      assert MemberPins(s1, t) == MemberPins(lib, t);
      if k == 1 {
        assert !Fires(s1, t);
      } else {
        assert Fires(s1, t);
        ContinuousModeRun(s1, t, k - 1, fuel - 1);
      }
    }
  }

  /** From a successful start in pulse mode (non-zero period ticks) on a timer
      whose clock comes on, the hardware sees exactly max(limit, 1) HIGH
      pulses, after which the timer is inactive with that many periods
      counted and its pins LOW; fewer steps leave it running. */
  lemma StartedPulseTrainEmits(lib: Lib, t: TimerId, fuel: nat)
    requires Valid(lib) && !IsTimerActive(lib, t) && lib.timers[t].numberOfPtrains > 0
    requires lib.timers[t].periodCounts != 0
    requires t != PTIMER3 && Low3(lib.timers[t].bitPrescale) != 0
    ensures var started := StartTimer(lib, t);
            var m := Max(lib.timers[t].periodNumLimit, 1);
            var r := Run(started.lib, t, fuel);
            && started.code == 0
            && (fuel >= 2 * m ==>
                  && r.highs == m && r.steps == 2 * m
                  && !IsTimerActive(r.lib, t)
                  && r.lib.timers[t].numberOfPeriods == m
                  && PinsAt(r.lib.pins, MemberPins(lib, t), Low))
            && (fuel < 2 * m ==> IsTimerActive(r.lib, t) && r.highs == (fuel + 1) / 2)
  {
    var started := StartTimer(lib, t);
    assert MemberPins(started.lib, t) == MemberPins(lib, t);
    PulseModeRun(started.lib, t, Max(lib.timers[t].periodNumLimit, 1), fuel);
  }

  /** From a successful start in continuous mode (zero period ticks) on a
      timer whose clock comes on, the member pins go HIGH once, stay HIGH for
      max(limit, 1) further interrupts and go LOW on the last of them, when
      the timer stops. */
  lemma StartedContinuousRunHolds(lib: Lib, t: TimerId, fuel: nat)
    requires Valid(lib) && !IsTimerActive(lib, t) && lib.timers[t].numberOfPtrains > 0
    requires lib.timers[t].periodCounts == 0
    requires t != PTIMER3 && Low3(lib.timers[t].bitPrescale) != 0
    ensures var started := StartTimer(lib, t);
            var m := Max(lib.timers[t].periodNumLimit, 1);
            var r := Run(started.lib, t, fuel);
            && started.code == 0
            && (fuel >= 1 + m ==>
                  && r.highs == 1 && r.steps == 1 + m
                  && !IsTimerActive(r.lib, t)
                  && r.lib.timers[t].numberOfPeriods == m
                  && PinsAt(r.lib.pins, MemberPins(lib, t), Low))
            && (1 <= fuel < 1 + m ==>
                  && IsTimerActive(r.lib, t) && r.highs == 1
                  && PinsAt(r.lib.pins, MemberPins(lib, t), High))
  {
    var started := StartTimer(lib, t);
    if fuel > 0 {
      var s1 := HandleInterrupt(started.lib, t);
      assert MemberPins(s1, t) == MemberPins(lib, t);
      assert Fires(s1, t);
      ContinuousModeRun(s1, t, Max(lib.timers[t].periodNumLimit, 1), fuel - 1);
    }
  }

  /** On timer 3 a start after a stop never turns the clock on, so the
      hardware never calls the interrupt and no pulse comes out. */
  lemma Timer3NeverPulsesAfterStop(lib: Lib, fuel: nat)
    requires Valid(lib)
    ensures var stopped := StopTimer(lib, PTIMER3).lib;
            var r := Run(StartTimer(stopped, PTIMER3).lib, PTIMER3, fuel);
            r.steps == 0 && r.highs == 0
  {
  }
}
