/** Timer membership: which trains a timer drives (pAddToTimer, pAttach,
    pRemoveFromTimer, pStop, pClearTimerOfPTrains) and the aggregate pulse,
    period, limit and clock-select code the interrupt uses
    (pReloadToTimer, pSetTimerPrescale). */
module Membership {
  import opened PulseTypes
  import opened Prescale

  /** The aggregate of a timer holds exactly what pReloadToTimer copies from `train`. */
  predicate LoadedFrom(c: TimerCtl, train: PTrain) {
    && c.pulseCounts == train.pulseCounts
    && c.periodCounts == train.periodCounts
    && c.periodNumLimit == train.periodNumLimit
    && c.bitPrescale == CodeForTrainPrescale(train.prescale)
  }

  /** Two timer records agree on everything but the aggregate and the code. */
  predicate SameMembership(a: TimerCtl, b: TimerCtl) {
    && a.ptrainIdxs == b.ptrainIdxs
    && a.numberOfPtrains == b.numberOfPtrains
    && a.numberOfPeriods == b.numberOfPeriods
    && a.pulsedState == b.pulsedState
  }

  /** Only timer `t`'s record may differ between `a` and `b`. */
  predicate OnlyTimerChanged(a: Lib, b: Lib, t: TimerId)
    requires Valid(a) && Valid(b)
  {
    && b.ptrains == a.ptrains
    && b.hw == a.hw
    && b.ptrainCount == a.ptrainCount
    && b.pins == a.pins
    && b.outputs == a.outputs
    && forall u :: 0 <= u < NUMBER_OF_16BIT_TIMERS && u != t ==> b.timers[u] == a.timers[u]
  }

  /** pSetTimerPrescale: stores the clock-select code for a `uint8_t` prescale. */
  function SetTimerPrescale(lib: Lib, timer: TimerId, prescale: u8): (r: Outcome)
    requires Valid(lib)
    ensures Valid(r.lib) && r.code == 0
    ensures OnlyTimerChanged(lib, r.lib, timer)
    ensures SameMembership(r.lib.timers[timer], lib.timers[timer])
    ensures r.lib.timers[timer] == lib.timers[timer].(bitPrescale := TimerPrescaleCode(prescale))
    ensures DivisorOfCode(r.lib.timers[timer].bitPrescale) == prescale <==> prescale in {1, 8, 64}
  {
    var c := lib.timers[timer];
    Outcome(lib.(timers := lib.timers[timer := c.(bitPrescale := TimerPrescaleCode(prescale))]), 0)
  }

  /** pReloadToTimer: copies the train's pulse ticks, period ticks and limit
      into the timer the train names, sets that timer's clock-select code from
      the train's prescale (0x02 for 8, 0x03 for 64, 0x01 otherwise), leaves
      every member list alone and answers that timer's member count. */
  function ReloadToTimer(lib: Lib, idx: u8): (r: Outcome)
    requires Valid(lib) && idx < NUMBER_OF_PTRAINS
    ensures Valid(r.lib)
    ensures var t := lib.ptrains[idx].timerNumber;
            && OnlyTimerChanged(lib, r.lib, t)
            && SameMembership(r.lib.timers[t], lib.timers[t])
            && LoadedFrom(r.lib.timers[t], lib.ptrains[idx])
            && r.code == lib.timers[t].numberOfPtrains
  {
    var train := lib.ptrains[idx];
    var t := train.timerNumber;
    var c := lib.timers[t];
    var copied := lib.(timers := lib.timers[t := c.(
      pulseCounts := train.pulseCounts,
      periodCounts := train.periodCounts,
      periodNumLimit := train.periodNumLimit)]);
    var scaled := SetTimerPrescale(copied, t, Wrap8(train.prescale));
    Outcome(scaled.lib, scaled.lib.timers[t].numberOfPtrains)
  }

  /** pAddToTimer: appends the train at position `number_of_ptrains` of `timer`
      (there is no capacity check in the source, hence the precondition), then
      reloads into the timer the TRAIN names, which need not be `timer`, and
      answers that timer's count. */
  function AddToTimer(lib: Lib, timer: TimerId, idx: u8): (r: Outcome)
    requires Valid(lib) && idx < NUMBER_OF_PTRAINS
    requires lib.timers[timer].numberOfPtrains < PTRAINS_PER_TIMER
    ensures Valid(r.lib)
    ensures Members(r.lib.timers[timer]) == Members(lib.timers[timer]) + [idx]
    ensures var c, n := lib.timers[timer], lib.timers[timer].numberOfPtrains;
            && r.lib.timers[timer].ptrainIdxs == c.ptrainIdxs[n := idx]
            && r.lib.timers[timer].numberOfPtrains == n + 1
            && r.lib.timers[timer].numberOfPeriods == c.numberOfPeriods
            && r.lib.timers[timer].pulsedState == c.pulsedState
            && (lib.ptrains[idx].timerNumber != timer ==>
                  r.lib.timers[timer] == c.(ptrainIdxs := c.ptrainIdxs[n := idx], numberOfPtrains := n + 1))
    ensures forall u :: 0 <= u < NUMBER_OF_16BIT_TIMERS && u != timer ==>
              SameMembership(r.lib.timers[u], lib.timers[u])
    ensures var t := lib.ptrains[idx].timerNumber;
            && LoadedFrom(r.lib.timers[t], lib.ptrains[idx])
            && r.code == r.lib.timers[t].numberOfPtrains
            && forall u :: 0 <= u < NUMBER_OF_16BIT_TIMERS && u != t && u != timer ==>
                 r.lib.timers[u] == lib.timers[u]
    ensures r.lib.ptrains == lib.ptrains && r.lib.hw == lib.hw && r.lib.pins == lib.pins
    ensures r.lib.outputs == lib.outputs && r.lib.ptrainCount == lib.ptrainCount
  {
    var c := lib.timers[timer];
    var n := c.numberOfPtrains;
    var c' := c.(ptrainIdxs := c.ptrainIdxs[n := idx], numberOfPtrains := n + 1);
    assert Members(c') == Members(c) + [idx];
    ReloadToTimer(lib.(timers := lib.timers[timer := c']), idx)
  }

  /** pAttach: puts the pin in OUTPUT mode, records the pin (as a byte) and the
      timer on the train, appends the train to the timer and stores what
      pAddToTimer answers, the NEW member count (slot + 1), as the train's
      `timer_index`; answers the train index. An index past the table is
      ERROR_PTRAIN_IDX with nothing changed. */
  function Attach(lib: Lib, idx: u8, pin: int, timer: TimerId): (r: Outcome)
    requires Valid(lib)
    requires idx < NUMBER_OF_PTRAINS ==> lib.timers[timer].numberOfPtrains < PTRAINS_PER_TIMER
    ensures Valid(r.lib)
    ensures idx >= NUMBER_OF_PTRAINS ==> r == Outcome(lib, ERROR_PTRAIN_IDX)
    ensures idx < NUMBER_OF_PTRAINS ==>
              var n := lib.timers[timer].numberOfPtrains;
              var train := lib.ptrains[idx].(pin := Wrap8(pin), timerNumber := timer, timerIndex := n + 1);
              && r.code == idx
              && Members(r.lib.timers[timer]) == Members(lib.timers[timer]) + [idx]
              && r.lib.timers[timer].ptrainIdxs == lib.timers[timer].ptrainIdxs[n := idx]
              && r.lib.timers[timer].numberOfPeriods == lib.timers[timer].numberOfPeriods
              && r.lib.timers[timer].pulsedState == lib.timers[timer].pulsedState
              && LoadedFrom(r.lib.timers[timer], train)
              && r.lib.ptrains[idx] == train
              && (forall j :: 0 <= j < NUMBER_OF_PTRAINS && j != idx ==> r.lib.ptrains[j] == lib.ptrains[j])
              && (forall u :: 0 <= u < NUMBER_OF_16BIT_TIMERS && u != timer ==> r.lib.timers[u] == lib.timers[u])
              && r.lib.outputs == lib.outputs + {Wrap8(pin)}
              && r.lib.hw == lib.hw && r.lib.pins == lib.pins && r.lib.ptrainCount == lib.ptrainCount
  {
    if idx < NUMBER_OF_PTRAINS then
      var bound := lib.ptrains[idx].(pin := Wrap8(pin), timerNumber := timer);
      var prepared := lib.(outputs := lib.outputs + {Wrap8(pin)}, ptrains := lib.ptrains[idx := bound]);
      var added := AddToTimer(prepared, timer, idx);
      var slot := added.code;
      Outcome(added.lib.(ptrains := added.lib.ptrains[idx := bound.(timerIndex := slot)]), idx)
    else
      Outcome(lib, ERROR_PTRAIN_IDX)
  }

  /** The loop of pRemoveFromTimer: for i from `i` while i < n, a[i-1] := a[i].
      Every entry from i-1 up to n-2 takes its right neighbour's value; all
      others, including the last one, are kept. */
  function SlideLeft(a: seq<u8>, i: nat, n: nat): (r: seq<u8>)
    requires 1 <= i && n <= |a|
    ensures |r| == |a|
    ensures forall j :: 0 <= j < |r| && i - 1 <= j < n - 1 ==> r[j] == a[j + 1]
    ensures forall j :: 0 <= j < |r| && !(i - 1 <= j < n - 1) ==> r[j] == a[j]
    decreases n - i
  {
    if i >= n then a
    else SlideLeft(a[i - 1 := a[i]], i + 1, n)
  }

  /** The member list pRemoveFromTimer leaves for a stored `timer_index` of
      `k`: position k is dropped when it is a member's position, otherwise the
      last member is. */
  function DropAt(m: seq<u8>, k: nat): (r: seq<u8>)
    requires |m| > 0
    ensures |r| == |m| - 1
    ensures forall j :: 0 <= j < |r| ==> r[j] == (if j < k then m[j] else m[j + 1])
  {
    if k < |m| then m[..k] + m[k + 1..] else m[..|m| - 1]
  }

  /** pRemoveFromTimer: on a timer with no members answers
      ERROR_PTRAIN_REMOVED and changes nothing. Otherwise, with `k` the
      train's stored `timer_index`, slides the entries from k+1 on one place
      left, drops the count by one and answers PTRAIN_REMOVED. No train's
      `timer_index` is rewritten. */
  function RemoveFromTimer(lib: Lib, timer: TimerId, idx: u8): (r: Outcome)
    requires Valid(lib) && idx < NUMBER_OF_PTRAINS
    ensures Valid(r.lib)
    ensures lib.timers[timer].numberOfPtrains == 0 ==> r == Outcome(lib, ERROR_PTRAIN_REMOVED)
    ensures lib.timers[timer].numberOfPtrains > 0 ==>
              var c := lib.timers[timer];
              var k := lib.ptrains[idx].timerIndex;
              && r.code == PTRAIN_REMOVED
              && OnlyTimerChanged(lib, r.lib, timer)
              && r.lib.timers[timer].numberOfPtrains == c.numberOfPtrains - 1
              && (forall j :: 0 <= j < PTRAINS_PER_TIMER ==>
                    r.lib.timers[timer].ptrainIdxs[j] ==
                      (if k <= j < c.numberOfPtrains - 1 then c.ptrainIdxs[j + 1] else c.ptrainIdxs[j]))
              && Members(r.lib.timers[timer]) == DropAt(Members(c), k)
              && r.lib.timers[timer] == c.(ptrainIdxs := r.lib.timers[timer].ptrainIdxs,
                                           numberOfPtrains := c.numberOfPtrains - 1)
  {
    var c := lib.timers[timer];
    var k := lib.ptrains[idx].timerIndex;
    if c.numberOfPtrains > 0 then
      var n := c.numberOfPtrains;
      var slid := SlideLeft(c.ptrainIdxs, k + 1, n);
      var c' := c.(ptrainIdxs := slid, numberOfPtrains := n - 1);
      assert forall j :: 0 <= j < n - 1 ==> slid[j] == c.ptrainIdxs[if k <= j then j + 1 else j];
      assert TimerValid(c');
      assert Members(c') == DropAt(Members(c), k);
      Outcome(lib.(timers := lib.timers[timer := c']), PTRAIN_REMOVED)
    else
      Outcome(lib, ERROR_PTRAIN_REMOVED)
  }

  /** pStop: removes the train from the timer it names and stores the answer
      (PTRAIN_REMOVED or ERROR_PTRAIN_REMOVED) as its `timer_index`. */
  function Stop(lib: Lib, idx: u8): (r: Outcome)
    requires Valid(lib) && idx < NUMBER_OF_PTRAINS
    ensures Valid(r.lib)
    ensures var removed := RemoveFromTimer(lib, lib.ptrains[idx].timerNumber, idx);
            && r.code == removed.code
            && r.lib.timers == removed.lib.timers
            && r.lib.ptrains[idx] == lib.ptrains[idx].(timerIndex := r.code)
            && OnlyTrainChanged(removed.lib, r.lib, idx)
            && r.lib.ptrainCount == lib.ptrainCount
    ensures r.code == PTRAIN_REMOVED <==> lib.timers[lib.ptrains[idx].timerNumber].numberOfPtrains > 0
  {
    var train := lib.ptrains[idx];
    var removed := RemoveFromTimer(lib, train.timerNumber, idx);
    Outcome(removed.lib.(ptrains := removed.lib.ptrains[idx := train.(timerIndex := removed.code)]), removed.code)
  }

  /** pClearTimerOfPTrains: forgets every member at once by zeroing the count;
      the stale bytes of the list and everything else stay. */
  function ClearTimerOfPTrains(lib: Lib, timer: TimerId): (r: Lib)
    requires Valid(lib)
    ensures Valid(r)
    ensures Members(r.timers[timer]) == []
    ensures OnlyTimerChanged(lib, r, timer)
    ensures r.timers[timer] == lib.timers[timer].(numberOfPtrains := 0)
  {
    lib.(timers := lib.timers[timer := lib.timers[timer].(numberOfPtrains := 0)])
  }
}
