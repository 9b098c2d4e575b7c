/** Properties that span several operations: attach and stop, the slot that
    pRemoveFromTimer really drops, and what pIsPTrainActive reads. */
module Scenarios {
  import opened PulseTypes
  import opened Membership
  import opened Lifecycle

  /** Stopping the train attached last restores the timer's member list and
      answers PTRAIN_REMOVED: its stored `timer_index` (the new count) lies past
      the last position, so the slide does nothing and only the count drops. */
  lemma AttachThenStopRestores(lib: Lib, idx: u8, pin: int, t: TimerId)
    requires Valid(lib) && idx < NUMBER_OF_PTRAINS
    requires lib.timers[t].numberOfPtrains < PTRAINS_PER_TIMER
    ensures var attached := Attach(lib, idx, pin, t);
            var stopped := Stop(attached.lib, idx);
            && attached.code == idx
            && stopped.code == PTRAIN_REMOVED
            && Members(stopped.lib.timers[t]) == Members(lib.timers[t])
            && stopped.lib.ptrains[idx].timerIndex == PTRAIN_REMOVED
  {
    var attached := Attach(lib, idx, pin, t);
    var m := Members(lib.timers[t]);
    assert DropAt(m + [idx], |m| + 1) == m;
  }

  /** A timer that had no members has none again after attach and stop, so a
      start is refused with ERROR_TIMER_RUNNING. */
  lemma AttachStopLeavesNothingToStart(lib: Lib, idx: u8, pin: int, t: TimerId)
    requires Valid(lib) && idx < NUMBER_OF_PTRAINS
    requires lib.timers[t].numberOfPtrains == 0
    ensures var stopped := Stop(Attach(lib, idx, pin, t).lib, idx);
            StartTimer(stopped.lib, t).code == ERROR_TIMER_RUNNING
  {
    AttachThenStopRestores(lib, idx, pin, t);
  }

  /** Three trains attached in turn to an empty timer occupy slots 0, 1, 2 but
      record `timer_index` 1, 2, 3. Stopping the first drops the second from
      the list and keeps the stopped one; stopping the second drops the third
      and keeps the stopped one. */
  lemma StopDropsTheSuccessor(lib: Lib, t: TimerId, a: u8, b: u8, c: u8, pa: int, pb: int, pc: int)
    requires Valid(lib) && lib.timers[t].numberOfPtrains == 0
    requires a < NUMBER_OF_PTRAINS && b < NUMBER_OF_PTRAINS && c < NUMBER_OF_PTRAINS
    requires a != b && b != c && a != c
    ensures var s1 := Attach(lib, a, pa, t).lib;
            var s2 := Attach(s1, b, pb, t).lib;
            var s3 := Attach(s2, c, pc, t).lib;
            && Members(s3.timers[t]) == [a, b, c]
            && s3.ptrains[a].timerIndex == 1 && s3.ptrains[b].timerIndex == 2 && s3.ptrains[c].timerIndex == 3
            && Members(Stop(s3, a).lib.timers[t]) == [a, c]
            && Members(Stop(s3, b).lib.timers[t]) == [a, b]
  {
    var s1 := Attach(lib, a, pa, t).lib;
    var s2 := Attach(s1, b, pb, t).lib;
    var s3 := Attach(s2, c, pc, t).lib;
    assert Members(s3.timers[t]) == [a, b, c];
    assert DropAt([a, b, c], 1) == [a, c];
    assert DropAt([a, b, c], 2) == [a, b];
  }

  /** Right after pAttach, pIsPTrainActive answers from the slot after the
      one the train was placed in: the train is a member, yet the answer is
      true exactly when the timer runs and the byte already in slot n + 1
      happens to be the train's index. */
  lemma AttachedActivityReadsNextSlot(lib: Lib, idx: u8, pin: int, t: TimerId)
    requires Valid(lib) && idx < NUMBER_OF_PTRAINS
    requires lib.timers[t].numberOfPtrains < PTRAINS_PER_TIMER - 1
    ensures var attached := Attach(lib, idx, pin, t).lib;
            var n := lib.timers[t].numberOfPtrains;
            && idx in Members(attached.timers[t])
            && (IsPTrainActive(attached, idx) <==>
                  IsTimerActive(lib, t) && lib.timers[t].ptrainIdxs[n + 1] == idx)
  {
  }

  /** pIsPTrainActive looks at the slot after the train's own: a train that is
      the only member of a running timer is reported inactive whenever the
      stale byte in slot 1 is not its index. */
  lemma LoneMemberReadsTheNextSlot(lib: Lib, idx: u8, pin: int, t: TimerId)
    requires Valid(lib) && idx < NUMBER_OF_PTRAINS
    requires lib.timers[t].numberOfPtrains == 0
    requires lib.timers[t].ptrainIdxs[1] != idx
    requires t != PTIMER3 && !IsTimerActive(lib, t)
    ensures var attached := Attach(lib, idx, pin, t).lib;
            var started := StartTimer(attached, t);
            && started.code == 0
            && IsTimerActive(started.lib, t)
            && Members(started.lib.timers[t]) == [idx]
            && !IsPTrainActive(started.lib, idx)
  {
    var attached := Attach(lib, idx, pin, t).lib;
    assert Members(attached.timers[t]) == [idx];
    assert attached.timers[t].ptrainIdxs[1] == lib.timers[t].ptrainIdxs[1];
    assert 1 <= attached.timers[t].bitPrescale <= 3;
  }
}
