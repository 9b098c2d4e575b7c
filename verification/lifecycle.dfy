/** Timer lifecycle: pIsTimerActive, pEnableISR, pStartTimer, pStopTimer,
    pSetupTimers, pStartPTrain and pIsPTrainActive. A timer is active when
    its three clock-select bits are not all zero. */
module Lifecycle {
  import opened PulseTypes
  import opened Membership

  /** The low three bits of a `uint8_t` code, the part that reaches the
      clock-select field. */
  function Low3(code: u8): bv3 {
    (code % 8) as bv3
  }

  /** pIsTimerActive: true iff the clock-select bits are non-zero; a value
      that names no timer is never active. */
  function IsTimerActive(lib: Lib, timer: int): bool
    requires Valid(lib)
  {
    0 <= timer < NUMBER_OF_16BIT_TIMERS && lib.hw[timer].divisor != 0
  }

  /** Everything but the hardware of timer `t` is equal in `a` and `b`. */
  predicate OnlyHwChanged(a: Lib, b: Lib, t: int)
    requires Valid(a) && Valid(b)
  {
    && b.ptrains == a.ptrains
    && b.timers == a.timers
    && b.ptrainCount == a.ptrainCount
    && b.pins == a.pins
    && b.outputs == a.outputs
    && forall u :: 0 <= u < NUMBER_OF_16BIT_TIMERS && u != t ==> b.hw[u] == a.hw[u]
  }

  /** pStopTimer: clears the clock-select bits and the compare interrupt of a
      real timer (any other value does nothing) and answers 0; the member
      list and every other record are kept, so the timer can be restarted. */
  function StopTimer(lib: Lib, timer: int): (r: Outcome)
    requires Valid(lib)
    ensures Valid(r.lib) && r.code == 0
    ensures !IsTimerActive(r.lib, timer)
    ensures OnlyHwChanged(lib, r.lib, timer)
    ensures 0 <= timer < NUMBER_OF_16BIT_TIMERS ==>
              && !r.lib.hw[timer].compareIrq
              && r.lib.hw[timer].counter == lib.hw[timer].counter
              && r.lib.hw[timer].compareTarget == lib.hw[timer].compareTarget
    ensures !(0 <= timer < NUMBER_OF_16BIT_TIMERS) ==> r.lib == lib
  {
    if 0 <= timer < NUMBER_OF_16BIT_TIMERS then
      Outcome(lib.(hw := lib.hw[timer := lib.hw[timer].(divisor := 0, compareIrq := false)]), 0)
    else
      Outcome(lib, 0)
  }

  /** The clock-select bits after pEnableISR: timers 1, 4 and 5 OR in the
      timer's code; timer 3 ANDs it in, as the source writes `&=` there. */
  function EnabledDivisor(timer: TimerId, divisor: bv3, code: u8): bv3 {
    if timer == PTIMER3 then divisor & Low3(code) else divisor | Low3(code)
  }

  /** pEnableISR: compare target SMALL_COUNT, counter cleared, clock-select
      bits combined with the timer's code, compare interrupt enabled. */
  function EnableIsr(lib: Lib, timer: TimerId): (r: Lib)
    requires Valid(lib)
    ensures Valid(r)
    ensures OnlyHwChanged(lib, r, timer)
    ensures r.hw[timer] == TimerHw(EnabledDivisor(timer, lib.hw[timer].divisor, lib.timers[timer].bitPrescale),
                                   true, 0, SMALL_COUNT)
    ensures timer != PTIMER3 && Low3(lib.timers[timer].bitPrescale) != 0 ==> IsTimerActive(r, timer)
    ensures timer == PTIMER3 && !IsTimerActive(lib, timer) ==> !IsTimerActive(r, timer)
  {
    var h := lib.hw[timer];
    lib.(hw := lib.hw[timer := TimerHw(EnabledDivisor(timer, h.divisor, lib.timers[timer].bitPrescale),
                                       true, 0, SMALL_COUNT)])
  }

  /** pStartTimer: an active timer or one without members answers
      ERROR_TIMER_RUNNING and nothing changes. Otherwise the period count
      restarts at 0, the state is PDC_INIT when the aggregate period is 0 and
      PPULSE_LO otherwise, the timer is enabled and the answer is 0. */
  function StartTimer(lib: Lib, timer: TimerId): (r: Outcome)
    requires Valid(lib)
    ensures Valid(r.lib)
    ensures IsTimerActive(lib, timer) || lib.timers[timer].numberOfPtrains == 0 ==>
              r == Outcome(lib, ERROR_TIMER_RUNNING)
    ensures !IsTimerActive(lib, timer) && lib.timers[timer].numberOfPtrains > 0 ==>
              var c := lib.timers[timer];
              && r.code == 0
              && r.lib.timers[timer] == c.(numberOfPeriods := 0,
                                           pulsedState := if c.periodCounts == 0 then PDC_INIT else PPULSE_LO)
              && r.lib.hw[timer] == EnableIsr(lib, timer).hw[timer]
              && OnlyTimerChanged(lib.(hw := r.lib.hw), r.lib, timer)
              && forall u :: 0 <= u < NUMBER_OF_16BIT_TIMERS && u != timer ==> r.lib.hw[u] == lib.hw[u]
  {
    var c := lib.timers[timer];
    if !IsTimerActive(lib, timer) && c.numberOfPtrains > 0 then
      var state := if c.periodCounts == 0 then PDC_INIT else PPULSE_LO;
      var prepared := lib.(timers := lib.timers[timer := c.(numberOfPeriods := 0, pulsedState := state)]);
      Outcome(EnableIsr(prepared, timer), 0)
    else
      Outcome(lib, ERROR_TIMER_RUNNING)
  }

  /** Starting a timer that the first start made active answers
      ERROR_TIMER_RUNNING and leaves its period count where it was. */
  lemma StartTwiceIsRejected(lib: Lib, timer: TimerId)
    requires Valid(lib) && timer != PTIMER3
    requires Low3(lib.timers[timer].bitPrescale) != 0
    ensures var first := StartTimer(lib, timer);
            var second := StartTimer(first.lib, timer);
            && second.code == ERROR_TIMER_RUNNING
            && second.lib == first.lib
  {
  }

  /** A stop keeps the members and the aggregate, so a timer with members
      starts again after any stop. Timer 3 is the exception: its start does
      not turn the clock back on. */
  lemma StopThenRestart(lib: Lib, timer: TimerId)
    requires Valid(lib) && lib.timers[timer].numberOfPtrains > 0
    ensures var stopped := StopTimer(lib, timer).lib;
            var restarted := StartTimer(stopped, timer);
            && restarted.code == 0
            && Members(restarted.lib.timers[timer]) == Members(lib.timers[timer])
            && restarted.lib.timers[timer].numberOfPeriods == 0
            && (timer != PTIMER3 && Low3(lib.timers[timer].bitPrescale) != 0 ==> IsTimerActive(restarted.lib, timer))
            && (timer == PTIMER3 ==> !IsTimerActive(restarted.lib, timer))
  {
  }

  /** The loop of pSetupTimers from timer `i` on: each is stopped and its
      state set to POFF; timers below `i` and all other records are kept. */
  function SetupFrom(lib: Lib, i: nat): (r: Lib)
    requires Valid(lib) && i <= NUMBER_OF_16BIT_TIMERS
    ensures Valid(r)
    ensures r.ptrains == lib.ptrains && r.pins == lib.pins && r.outputs == lib.outputs
    ensures r.ptrainCount == lib.ptrainCount
    ensures forall t :: 0 <= t < i ==> r.timers[t] == lib.timers[t] && r.hw[t] == lib.hw[t]
    ensures forall t :: i <= t < NUMBER_OF_16BIT_TIMERS ==>
              && !IsTimerActive(r, t) && !r.hw[t].compareIrq
              && r.timers[t] == lib.timers[t].(pulsedState := POFF)
    decreases NUMBER_OF_16BIT_TIMERS - i
  {
    if i == NUMBER_OF_16BIT_TIMERS then lib
    else
      var stopped := StopTimer(lib, i).lib;
      var off := stopped.(timers := stopped.timers[i := stopped.timers[i].(pulsedState := POFF)]);
      SetupFrom(off, i + 1)
  }

  /** pSetupTimers: every timer stopped (inactive, interrupt off) and in
      state POFF, memberships and aggregates untouched; answers 0. */
  function SetupTimers(lib: Lib): (r: Outcome)
    requires Valid(lib)
    ensures Valid(r.lib) && r.code == 0
    ensures r.lib.ptrains == lib.ptrains && r.lib.ptrainCount == lib.ptrainCount
    ensures r.lib.pins == lib.pins && r.lib.outputs == lib.outputs
    ensures forall t :: 0 <= t < NUMBER_OF_16BIT_TIMERS ==>
              && !IsTimerActive(r.lib, t)
              && !r.lib.hw[t].compareIrq
              && r.lib.timers[t] == lib.timers[t].(pulsedState := POFF)
  {
    Outcome(SetupFrom(lib, 0), 0)
  }

  /** pStartPTrain: starts the timer the train names; the answer is dropped.
      A running or memberless timer is left as it is; otherwise the timer
      restarts its period count, picks its mode from its period ticks and is
      enabled. */
  function StartPTrain(lib: Lib, idx: u8): (r: Lib)
    requires Valid(lib) && idx < NUMBER_OF_PTRAINS
    ensures Valid(r)
    ensures var t := lib.ptrains[idx].timerNumber;
            && Members(r.timers[t]) == Members(lib.timers[t])
            && r.ptrains == lib.ptrains
            && (IsTimerActive(lib, t) || lib.timers[t].numberOfPtrains == 0 ==> r == lib)
            && (!IsTimerActive(lib, t) && lib.timers[t].numberOfPtrains > 0 ==>
                  var c := lib.timers[t];
                  && r.timers[t] == c.(numberOfPeriods := 0,
                                       pulsedState := if c.periodCounts == 0 then PDC_INIT else PPULSE_LO)
                  && r.hw[t] == EnableIsr(lib, t).hw[t]
                  && OnlyTimerChanged(lib.(hw := r.hw), r, t)
                  && forall u :: 0 <= u < NUMBER_OF_16BIT_TIMERS && u != t ==> r.hw[u] == lib.hw[u])
  {
    StartTimer(lib, lib.ptrains[idx].timerNumber).lib
  }

  /** pIsPTrainActive: the train's timer is active and the member-list entry
      at the train's stored `timer_index` is the train itself. The source reads
      that entry without a bound check, hence the precondition. */
  function IsPTrainActive(lib: Lib, idx: u8): (b: bool)
    requires Valid(lib) && idx < NUMBER_OF_PTRAINS
    requires lib.ptrains[idx].timerIndex < PTRAINS_PER_TIMER
    ensures b <==> IsTimerActive(lib, lib.ptrains[idx].timerNumber)
                   && lib.timers[lib.ptrains[idx].timerNumber].ptrainIdxs[lib.ptrains[idx].timerIndex] == idx
  {
    var train := lib.ptrains[idx];
    && lib.timers[train.timerNumber].ptrainIdxs[train.timerIndex] == idx
    && IsTimerActive(lib, train.timerNumber)
  }
}
