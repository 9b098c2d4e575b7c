/** Corrected forms of three operations whose source behaviour departs from
    the library's evident intent (the field comment on `timer_index`, the
    prescale table, the identical enable sequence of the four timers). The
    rest of the model keeps the behaviour as written; these definitions carry
    the intended properties. */
module Corrected {
  import opened PulseTypes
  import opened Prescale
  import opened Membership
  import opened Lifecycle

  /** Every member's `timer_index` is its slot and its `timer_number` its
      timer: the bookkeeping the field comments describe. */
  predicate Consistent(lib: Lib)
    requires Valid(lib)
  {
    forall u, j :: 0 <= u < NUMBER_OF_16BIT_TIMERS && 0 <= j < lib.timers[u].numberOfPtrains ==>
      && lib.ptrains[lib.timers[u].ptrainIdxs[j]].timerIndex == j
      && lib.ptrains[lib.timers[u].ptrainIdxs[j]].timerNumber == u
  }

  /** The train is listed by the timer it names. */
  predicate IsMember(lib: Lib, idx: u8)
    requires Valid(lib) && idx < NUMBER_OF_PTRAINS
  {
    idx in Members(lib.timers[lib.ptrains[idx].timerNumber])
  }

  /** The train is listed by no timer. */
  predicate Unlisted(lib: Lib, idx: u8)
    requires Valid(lib)
  {
    forall u, j :: 0 <= u < NUMBER_OF_16BIT_TIMERS && 0 <= j < lib.timers[u].numberOfPtrains ==>
      lib.timers[u].ptrainIdxs[j] != idx
  }

  /** pAttach as intended: the train records the slot it was given, one less
      than the count pAddToTimer answers. */
  function AttachFixed(lib: Lib, idx: u8, pin: int, timer: TimerId): (r: Outcome)
    requires Valid(lib)
    requires idx < NUMBER_OF_PTRAINS ==> lib.timers[timer].numberOfPtrains < PTRAINS_PER_TIMER
    ensures Valid(r.lib)
    ensures idx >= NUMBER_OF_PTRAINS ==> r == Outcome(lib, ERROR_PTRAIN_IDX)
    ensures idx < NUMBER_OF_PTRAINS ==>
              && r.code == idx
              && Members(r.lib.timers[timer]) == Members(lib.timers[timer]) + [idx]
              && r.lib.ptrains[idx].timerIndex == lib.timers[timer].numberOfPtrains
              && r.lib.ptrains[idx].timerNumber == timer
    ensures idx < NUMBER_OF_PTRAINS && Consistent(lib) && Unlisted(lib, idx) ==> Consistent(r.lib)
  {
    var attached := Attach(lib, idx, pin, timer);
    if idx < NUMBER_OF_PTRAINS then
      var train := attached.lib.ptrains[idx];
      var fixedLib := attached.lib.(ptrains := attached.lib.ptrains[idx := train.(timerIndex := train.timerIndex - 1)]);
      AttachFixedKeepsConsistent(lib, attached.lib, fixedLib, idx, timer);
      Outcome(fixedLib, idx)
    else
      attached
  }

  lemma AttachFixedKeepsConsistent(lib: Lib, attached: Lib, fixedLib: Lib, idx: u8, timer: TimerId)
    requires Valid(lib) && Valid(attached) && Valid(fixedLib) && idx < NUMBER_OF_PTRAINS
    requires Members(attached.timers[timer]) == Members(lib.timers[timer]) + [idx]
    requires forall u :: 0 <= u < NUMBER_OF_16BIT_TIMERS && u != timer ==> attached.timers[u] == lib.timers[u]
    requires forall j :: 0 <= j < NUMBER_OF_PTRAINS && j != idx ==> fixedLib.ptrains[j] == lib.ptrains[j]
    requires fixedLib.timers == attached.timers
    requires fixedLib.ptrains[idx].timerIndex == lib.timers[timer].numberOfPtrains
    requires fixedLib.ptrains[idx].timerNumber == timer
    ensures Consistent(lib) && Unlisted(lib, idx) ==> Consistent(fixedLib)
  {
    if Consistent(lib) && Unlisted(lib, idx) {
      forall u, j | 0 <= u < NUMBER_OF_16BIT_TIMERS && 0 <= j < fixedLib.timers[u].numberOfPtrains
        ensures fixedLib.ptrains[fixedLib.timers[u].ptrainIdxs[j]].timerIndex == j
        ensures fixedLib.ptrains[fixedLib.timers[u].ptrainIdxs[j]].timerNumber == u
      {
        if u == timer {
          var n := lib.timers[timer].numberOfPtrains;
          assert fixedLib.timers[u].ptrainIdxs[j] == Members(attached.timers[timer])[j];
          if j < n {
            assert fixedLib.timers[u].ptrainIdxs[j] == lib.timers[u].ptrainIdxs[j];
          }
        }
      }
    }
  }

  /** pStop as intended: the train leaves its own slot, and every member after
      it moves one slot left together with its recorded `timer_index`. */
  function StopFixed(lib: Lib, idx: u8): (r: Outcome)
    requires Valid(lib) && idx < NUMBER_OF_PTRAINS
    requires Consistent(lib) && IsMember(lib, idx)
    ensures Valid(r.lib)
    ensures var t := lib.ptrains[idx].timerNumber;
            var m := Members(lib.timers[t]);
            var s := lib.ptrains[idx].timerIndex;
            && s < |m| && m[s] == idx
            && r.code == PTRAIN_REMOVED
            && Members(r.lib.timers[t]) == m[..s] + m[s + 1..]
            && idx !in Members(r.lib.timers[t])
            && r.lib.ptrains[idx].timerIndex == PTRAIN_REMOVED
            && Consistent(r.lib)
  {
    var t := lib.ptrains[idx].timerNumber;
    var c := lib.timers[t];
    var s := lib.ptrains[idx].timerIndex;
    MemberSlot(lib, idx);
    var removed := RemoveFromTimer(lib, t, idx);
    var renumbered := seq(NUMBER_OF_PTRAINS, k requires 0 <= k < NUMBER_OF_PTRAINS =>
      var train := lib.ptrains[k];
      if k == idx then train.(timerIndex := removed.code)
      else if Shifted(lib, t, s, k) then train.(timerIndex := train.timerIndex - 1)
      else train);
    var r := removed.lib.(ptrains := renumbered);
    StopFixedKeepsConsistent(lib, r, idx);
    Outcome(r, removed.code)
  }

  /** Train `k` sits in a slot of timer `t` after slot `s`. */
  predicate Shifted(lib: Lib, t: TimerId, s: nat, k: int)
    requires Valid(lib) && 0 <= k < NUMBER_OF_PTRAINS
  {
    var train := lib.ptrains[k];
    && train.timerNumber == t
    && s < train.timerIndex < lib.timers[t].numberOfPtrains
    && lib.timers[t].ptrainIdxs[train.timerIndex] == k
  }

  /** Under consistent bookkeeping a member is found at its recorded slot. */
  lemma MemberSlot(lib: Lib, idx: u8)
    requires Valid(lib) && idx < NUMBER_OF_PTRAINS && Consistent(lib) && IsMember(lib, idx)
    ensures var t := lib.ptrains[idx].timerNumber;
            var s := lib.ptrains[idx].timerIndex;
            s < lib.timers[t].numberOfPtrains && lib.timers[t].ptrainIdxs[s] == idx
  {
    var t := lib.ptrains[idx].timerNumber;
    var j :| 0 <= j < |Members(lib.timers[t])| && Members(lib.timers[t])[j] == idx;
    assert lib.timers[t].ptrainIdxs[j] == idx;
  }

  lemma StopFixedKeepsConsistent(lib: Lib, r: Lib, idx: u8)
    requires Valid(lib) && Valid(r) && idx < NUMBER_OF_PTRAINS
    requires Consistent(lib) && IsMember(lib, idx)
    requires var t := lib.ptrains[idx].timerNumber;
             var s := lib.ptrains[idx].timerIndex;
             && s < lib.timers[t].numberOfPtrains && lib.timers[t].ptrainIdxs[s] == idx
             && r.timers == RemoveFromTimer(lib, t, idx).lib.timers
             && r.ptrains[idx].timerIndex == PTRAIN_REMOVED
             && forall k :: 0 <= k < NUMBER_OF_PTRAINS && k != idx ==>
                  r.ptrains[k] == (if Shifted(lib, t, s, k)
                                   then lib.ptrains[k].(timerIndex := lib.ptrains[k].timerIndex - 1)
                                   else lib.ptrains[k])
    ensures Consistent(r)
  {
    var t := lib.ptrains[idx].timerNumber;
    var s := lib.ptrains[idx].timerIndex;
    var c := lib.timers[t];
    forall u, j | 0 <= u < NUMBER_OF_16BIT_TIMERS && 0 <= j < r.timers[u].numberOfPtrains
      ensures r.ptrains[r.timers[u].ptrainIdxs[j]].timerIndex == j
      ensures r.ptrains[r.timers[u].ptrainIdxs[j]].timerNumber == u
    {
      var k := r.timers[u].ptrainIdxs[j];
      if u != t {
        assert k == lib.timers[u].ptrainIdxs[j];
        assert lib.ptrains[k].timerNumber == u;
        assert k != idx && !Shifted(lib, t, s, k);
      } else if j < s {
        assert k == c.ptrainIdxs[j];
        assert lib.ptrains[k].timerIndex == j;
        assert k != idx && !Shifted(lib, t, s, k);
      } else {
        assert k == c.ptrainIdxs[j + 1];
        assert lib.ptrains[k].timerIndex == j + 1;
        assert k != idx && Shifted(lib, t, s, k);
      }
    }
  }

  /** With consistent bookkeeping pIsPTrainActive answers the question it
      asks: a member is reported active exactly when its timer is. */
  lemma ConsistentMemberActivity(lib: Lib, idx: u8)
    requires Valid(lib) && idx < NUMBER_OF_PTRAINS && Consistent(lib) && IsMember(lib, idx)
    ensures lib.ptrains[idx].timerIndex < PTRAINS_PER_TIMER
    ensures IsPTrainActive(lib, idx) <==> IsTimerActive(lib, lib.ptrains[idx].timerNumber)
  {
    MemberSlot(lib, idx);
  }

  /** Attaching one train leaves every other unlisted train unlisted. */
  lemma AttachFixedKeepsOthersUnlisted(lib: Lib, idx: u8, pin: int, t: TimerId, other: u8)
    requires Valid(lib) && idx < NUMBER_OF_PTRAINS && lib.timers[t].numberOfPtrains < PTRAINS_PER_TIMER
    requires other != idx && Unlisted(lib, other)
    ensures Unlisted(AttachFixed(lib, idx, pin, t).lib, other)
  {
    var r := AttachFixed(lib, idx, pin, t).lib;
    forall u, j | 0 <= u < NUMBER_OF_16BIT_TIMERS && 0 <= j < r.timers[u].numberOfPtrains
      ensures r.timers[u].ptrainIdxs[j] != other
    {
      if u == t {
        assert r.timers[u].ptrainIdxs[j] == (Members(lib.timers[t]) + [idx])[j];
        if j < lib.timers[t].numberOfPtrains {
          assert r.timers[u].ptrainIdxs[j] == lib.timers[u].ptrainIdxs[j];
        }
      }
    }
  }

  /** With the intended bookkeeping, stopping the middle one of three members
      removes exactly it and the last member takes its slot. */
  lemma StopFixedMiddleOfThree(lib: Lib, t: TimerId, a: u8, b: u8, c: u8, pa: int, pb: int, pc: int)
    requires Valid(lib) && Consistent(lib) && lib.timers[t].numberOfPtrains == 0
    requires a < NUMBER_OF_PTRAINS && b < NUMBER_OF_PTRAINS && c < NUMBER_OF_PTRAINS
    requires a != b && b != c && a != c
    requires Unlisted(lib, a) && Unlisted(lib, b) && Unlisted(lib, c)
    ensures var s1 := AttachFixed(lib, a, pa, t).lib;
            var s2 := AttachFixed(s1, b, pb, t).lib;
            var s3 := AttachFixed(s2, c, pc, t).lib;
            && Consistent(s3)
            && IsMember(s3, b)
            && Members(StopFixed(s3, b).lib.timers[t]) == [a, c]
            && StopFixed(s3, b).lib.ptrains[c].timerIndex == 1
  {
    var s1 := AttachFixed(lib, a, pa, t).lib;
    AttachFixedKeepsOthersUnlisted(lib, a, pa, t, b);
    AttachFixedKeepsOthersUnlisted(lib, a, pa, t, c);
    assert Members(s1.timers[t]) == [a];
    var s2 := AttachFixed(s1, b, pb, t).lib;
    AttachFixedKeepsOthersUnlisted(s1, b, pb, t, c);
    assert Members(s2.timers[t]) == [a, b];
    var s3 := AttachFixed(s2, c, pc, t).lib;
    var m := Members(s3.timers[t]);
    assert m == [a, b, c];
    assert Consistent(s3);
    assert s3.timers[t].ptrainIdxs[1] == b;
    assert s3.ptrains[b].timerIndex == 1 && s3.ptrains[b].timerNumber == t;
    assert IsMember(s3, b);
    var r := StopFixed(s3, b).lib;
    assert Members(r.timers[t]) == m[..1] + m[2..];
    assert Members(r.timers[t]) == [a, c];
    assert r.timers[t].ptrainIdxs[1] == c;
  }

  /** pSetTimerPrescale with the `uint16_t` argument the train's prescale
      has, so that 256 and 1024 reach their own codes. */
  function TimerPrescaleCodeWide(prescale: u16): (code: u8)
    ensures 1 <= code <= 5
    ensures IsSupportedPrescale(prescale) <==> DivisorOfCode(code) == prescale
  {
    if prescale == 1024 then 0x05
    else if prescale == 256 then 0x04
    else if prescale == 64 then 0x03
    else if prescale == 8 then 0x02
    else 0x01
  }

  /** As written, the narrowing to `uint8_t` gives the trains with prescale
      256 or 1024 the undivided clock, so their ticks run 256 or 1024 times
      too fast; the wide version gives them their own divisor. */
  lemma WidePrescaleTruncated(p: u16)
    requires p == 256 || p == 1024
    ensures DivisorOfCode(CodeForTrainPrescale(p)) == 1
    ensures DivisorOfCode(TimerPrescaleCodeWide(p)) == p
  {
  }

  /** pEnableISR as intended: every timer ORs its code into the clock-select bits. */
  function EnableIsrFixed(lib: Lib, timer: TimerId): (r: Lib)
    requires Valid(lib)
    ensures Valid(r)
    ensures OnlyHwChanged(lib, r, timer)
    ensures r.hw[timer].compareIrq && r.hw[timer].counter == 0 && r.hw[timer].compareTarget == SMALL_COUNT
    ensures Low3(lib.timers[timer].bitPrescale) != 0 ==> IsTimerActive(r, timer)
  {
    var h := lib.hw[timer];
    lib.(hw := lib.hw[timer := TimerHw(h.divisor | Low3(lib.timers[timer].bitPrescale), true, 0, SMALL_COUNT)])
  }

  /** pStartTimer with the intended enable. */
  function StartTimerFixed(lib: Lib, timer: TimerId): (r: Outcome)
    requires Valid(lib)
    ensures Valid(r.lib)
    ensures IsTimerActive(lib, timer) || lib.timers[timer].numberOfPtrains == 0 ==>
              r == Outcome(lib, ERROR_TIMER_RUNNING)
    ensures !IsTimerActive(lib, timer) && lib.timers[timer].numberOfPtrains > 0 ==>
              && r.code == 0
              && r.lib.timers[timer].numberOfPeriods == 0
              && Members(r.lib.timers[timer]) == Members(lib.timers[timer])
              && (Low3(lib.timers[timer].bitPrescale) != 0 ==> IsTimerActive(r.lib, timer))
  {
    var c := lib.timers[timer];
    if !IsTimerActive(lib, timer) && c.numberOfPtrains > 0 then
      var state := if c.periodCounts == 0 then PDC_INIT else PPULSE_LO;
      var prepared := lib.(timers := lib.timers[timer := c.(numberOfPeriods := 0, pulsedState := state)]);
      Outcome(EnableIsrFixed(prepared, timer), 0)
    else
      Outcome(lib, ERROR_TIMER_RUNNING)
  }

  /** With the intended enable, a stopped timer 3 with members and a clock
      code comes back on, where the source's leaves it off. */
  lemma Timer3RestartsWhenFixed(lib: Lib)
    requires Valid(lib) && lib.timers[PTIMER3].numberOfPtrains > 0
    requires Low3(lib.timers[PTIMER3].bitPrescale) != 0
    ensures var stopped := StopTimer(lib, PTIMER3).lib;
            && IsTimerActive(StartTimerFixed(stopped, PTIMER3).lib, PTIMER3)
            && !IsTimerActive(StartTimer(stopped, PTIMER3).lib, PTIMER3)
  {
  }
}
