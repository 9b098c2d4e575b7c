/** The pulse-train registry: allocation (pNewPTrain), configuration in
    microseconds (_pSetPulseUS, pSetPulseUS), the narrow setters and the
    getters. None of them touches a timer. */
module Registry {
  import opened PulseTypes
  import opened Prescale

  function Min(a: int, b: int): int {
    if a <= b then a else b
  }

  /** pNewPTrain: hands out the next unused index and gives it the default
      prescale; once NUMBER_OF_PTRAINS indices are out it answers
      ERROR_PTRAIN_IDX and changes nothing. */
  function NewPTrain(lib: Lib): (r: Outcome)
    requires Valid(lib)
    ensures Valid(r.lib)
    ensures lib.ptrainCount < NUMBER_OF_PTRAINS ==>
              && r.code == lib.ptrainCount
              && r.lib.ptrainCount == lib.ptrainCount + 1
              && r.lib.ptrains[r.code] == lib.ptrains[r.code].(prescale := DEFAULT_PTRAIN_PRESCALE)
              && OnlyTrainChanged(lib, r.lib, r.code)
    ensures lib.ptrainCount >= NUMBER_OF_PTRAINS ==> r == Outcome(lib, ERROR_PTRAIN_IDX)
  {
    var temp := lib.ptrainCount;
    if temp < NUMBER_OF_PTRAINS then
      var train := lib.ptrains[temp].(prescale := DEFAULT_PTRAIN_PRESCALE);
      Outcome(lib.(ptrains := lib.ptrains[temp := train], ptrainCount := temp + 1), temp)
    else
      Outcome(lib, ERROR_PTRAIN_IDX)
  }

  /** `k` successive calls of pNewPTrain, with the codes they return in order. */
  function NewPTrains(lib: Lib, k: nat): (r: (Lib, seq<u8>))
    requires Valid(lib)
    ensures Valid(r.0) && |r.1| == k
    decreases k
  {
    if k == 0 then (lib, [])
    else
      var first := NewPTrain(lib);
      var rest := NewPTrains(first.lib, k - 1);
      (rest.0, [first.code] + rest.1)
  }

  /** Indices come out in increasing order from the current count, each exactly
      once, until the table is full; every later call answers ERROR_PTRAIN_IDX. */
  lemma {:induction false} NewPTrainsAreSequential(lib: Lib, k: nat)
    requires Valid(lib)
    ensures NewPTrains(lib, k).0.ptrainCount == Min(lib.ptrainCount + k, NUMBER_OF_PTRAINS)
    ensures forall j :: 0 <= j < k ==>
              NewPTrains(lib, k).1[j] ==
                (if lib.ptrainCount + j < NUMBER_OF_PTRAINS then lib.ptrainCount + j else ERROR_PTRAIN_IDX)
    decreases k
  {
    if k > 0 {
      var first := NewPTrain(lib);
      NewPTrainsAreSequential(first.lib, k - 1);
      var rest := NewPTrains(first.lib, k - 1);
      assert NewPTrains(lib, k).1 == [first.code] + rest.1;
      forall j | 0 <= j < k
        ensures NewPTrains(lib, k).1[j] ==
                  (if lib.ptrainCount + j < NUMBER_OF_PTRAINS then lib.ptrainCount + j else ERROR_PTRAIN_IDX)
      {
        if j > 0 {
          assert NewPTrains(lib, k).1[j] == rest.1[j - 1];
        }
      }
    }
  }

  /** The fields a successful configuration writes: prescale `p`, both tick
      counts converted with `p`, and the period limit; pin and timer binding are kept. */
  predicate ConfiguredAs(after: PTrain, before: PTrain, clk: Clock, period: u32, pulse: u32, limit: u16, p: u16)
  {
    && p > 0
    && after.prescale == p
    && after.periodCounts == UsToCounts(clk, period, p)
    && after.pulseCounts == UsToCounts(clk, pulse, p)
    && after.periodNumLimit == limit
    && after.pin == before.pin
    && after.timerIndex == before.timerIndex
    && after.timerNumber == before.timerNumber
  }

  /** _pSetPulseUS: an index past the table is ERROR_PTRAIN_IDX, a pulse not
      shorter than a non-zero period is ERROR_TIMER_COUNT, and either error
      leaves everything as it was. Otherwise the train gets the requested
      prescale when it is on the whitelist (else the default 8), its two tick
      counts and its period limit, and the answer is 0. */
  function SetPulseUsPrescaled(lib: Lib, clk: Clock, idx: u8, period: u32, pulse: u32,
                               limit: u16, prescale: u16): (r: Outcome)
    requires Valid(lib)
    ensures Valid(r.lib)
    ensures idx >= NUMBER_OF_PTRAINS ==> r == Outcome(lib, ERROR_PTRAIN_IDX)
    ensures idx < NUMBER_OF_PTRAINS && pulse >= period && period != 0 ==>
              r == Outcome(lib, ERROR_TIMER_COUNT)
    ensures idx < NUMBER_OF_PTRAINS && (pulse < period || period == 0) ==>
              && r.code == 0
              && OnlyTrainChanged(lib, r.lib, idx)
              && r.lib.ptrainCount == lib.ptrainCount
              && ConfiguredAs(r.lib.ptrains[idx], lib.ptrains[idx], clk, period, pulse, limit, ChoosePrescale(prescale))
  {
    if idx < NUMBER_OF_PTRAINS then
      if pulse < period || period == 0 then
        var p := ChoosePrescale(prescale);
        var train := lib.ptrains[idx].(
          prescale := p,
          periodCounts := UsToCounts(clk, period, p),
          pulseCounts := UsToCounts(clk, pulse, p),
          periodNumLimit := limit);
        Outcome(lib.(ptrains := lib.ptrains[idx := train]), 0)
      else
        Outcome(lib, ERROR_TIMER_COUNT)
    else
      Outcome(lib, ERROR_PTRAIN_IDX)
  }

  /** pSetPulseUS: configuration with the train's own prescale. A prescale
      already on the whitelist stays; any other (the zero of a never-allocated
      train) is replaced by the default. The C code reads the prescale of an
      out-of-range index before the range check; the value read cannot change
      the ERROR_PTRAIN_IDX answer, so it is not modelled. */
  function SetPulseUs(lib: Lib, clk: Clock, idx: u8, period: u32, pulse: u32, limit: u16): (r: Outcome)
    requires Valid(lib)
    ensures Valid(r.lib)
    ensures idx >= NUMBER_OF_PTRAINS ==> r == Outcome(lib, ERROR_PTRAIN_IDX)
    ensures idx < NUMBER_OF_PTRAINS && pulse >= period && period != 0 ==>
              r == Outcome(lib, ERROR_TIMER_COUNT)
    ensures idx < NUMBER_OF_PTRAINS && (pulse < period || period == 0) ==>
              && r.code == 0
              && OnlyTrainChanged(lib, r.lib, idx)
              && r.lib.ptrainCount == lib.ptrainCount
              && (IsSupportedPrescale(lib.ptrains[idx].prescale) ==>
                    r.lib.ptrains[idx].prescale == lib.ptrains[idx].prescale)
              && (!IsSupportedPrescale(lib.ptrains[idx].prescale) ==>
                    r.lib.ptrains[idx].prescale == DEFAULT_PTRAIN_PRESCALE)
              && ConfiguredAs(r.lib.ptrains[idx], lib.ptrains[idx], clk, period, pulse, limit,
                              r.lib.ptrains[idx].prescale)
  {
    if idx < NUMBER_OF_PTRAINS then
      SetPulseUsPrescaled(lib, clk, idx, period, pulse, limit, lib.ptrains[idx].prescale)
    else
      Outcome(lib, ERROR_PTRAIN_IDX)
  }

  /** pGetPulseCounts. */
  function GetPulseCounts(lib: Lib, idx: u8): u16
    requires Valid(lib) && idx < NUMBER_OF_PTRAINS
  {
    lib.ptrains[idx].pulseCounts
  }

  /** pGetPeriodCounts. */
  function GetPeriodCounts(lib: Lib, idx: u8): u16
    requires Valid(lib) && idx < NUMBER_OF_PTRAINS
  {
    lib.ptrains[idx].periodCounts
  }

  /** pGetPeriodNumber. */
  function GetPeriodNumber(lib: Lib, idx: u8): u16
    requires Valid(lib) && idx < NUMBER_OF_PTRAINS
  {
    lib.ptrains[idx].periodNumLimit
  }

  /** A successful configuration reads back, through the getters, as
      floor(clk * us / prescale) ticks for both the period and the pulse, and
      as the limit it was given, whenever the products do not wrap. */
  lemma ConfigureReadBack(lib: Lib, clk: Clock, idx: u8, period: u32, pulse: u32, limit: u16, prescale: u16)
    requires Valid(lib) && idx < NUMBER_OF_PTRAINS && (pulse < period || period == 0)
    requires IsSupportedPrescale(prescale)
    requires Fits(clk, period, prescale) && Fits(clk, pulse, prescale)
    ensures var r := SetPulseUsPrescaled(lib, clk, idx, period, pulse, limit, prescale);
            && r.code == 0
            && GetPeriodCounts(r.lib, idx) == clk * period / prescale
            && GetPulseCounts(r.lib, idx) == clk * pulse / prescale
            && GetPeriodNumber(r.lib, idx) == limit
  {
    UsToCountsExact(clk, period, prescale);
    UsToCountsExact(clk, pulse, prescale);
  }

  /** With a non-zero period that does not wrap, a successful configuration
      never stores more pulse ticks than period ticks. Strictly fewer is not
      promised: see ShorterPulseCanEqualPeriodTicks. */
  lemma ConfiguredPulseWithinPeriod(lib: Lib, clk: Clock, idx: u8, period: u32, pulse: u32, limit: u16, prescale: u16)
    requires Valid(lib) && idx < NUMBER_OF_PTRAINS
    requires pulse < period
    requires Fits(clk, period, ChoosePrescale(prescale))
    ensures var r := SetPulseUsPrescaled(lib, clk, idx, period, pulse, limit, prescale);
            r.code == 0 && GetPulseCounts(r.lib, idx) <= GetPeriodCounts(r.lib, idx)
  {
    UsToCountsMonotone(clk, pulse, period, ChoosePrescale(prescale));
  }

  /** pSetPulseOnlyUS: recomputes the pulse ticks with the train's prescale and
      touches no other field; no check against the period. */
  function SetPulseOnlyUs(lib: Lib, clk: Clock, idx: u8, pulse: u32): (r: Outcome)
    requires Valid(lib) && idx < NUMBER_OF_PTRAINS && lib.ptrains[idx].prescale > 0
    ensures Valid(r.lib)
    ensures r.code == 0
    ensures OnlyTrainChanged(lib, r.lib, idx) && r.lib.ptrainCount == lib.ptrainCount
    ensures r.lib.ptrains[idx] == lib.ptrains[idx].(pulseCounts := r.lib.ptrains[idx].pulseCounts)
    ensures GetPulseCounts(r.lib, idx) == UsToCounts(clk, pulse, lib.ptrains[idx].prescale)
  {
    var train := lib.ptrains[idx];
    Outcome(lib.(ptrains := lib.ptrains[idx := train.(pulseCounts := UsToCounts(clk, pulse, train.prescale))]), 0)
  }

  /** pSetPeriodOnlyUS: recomputes the period ticks with the train's prescale
      and touches no other field; no check against the pulse. */
  function SetPeriodOnlyUs(lib: Lib, clk: Clock, idx: u8, period: u32): (r: Outcome)
    requires Valid(lib) && idx < NUMBER_OF_PTRAINS && lib.ptrains[idx].prescale > 0
    ensures Valid(r.lib)
    ensures r.code == 0
    ensures OnlyTrainChanged(lib, r.lib, idx) && r.lib.ptrainCount == lib.ptrainCount
    ensures r.lib.ptrains[idx] == lib.ptrains[idx].(periodCounts := r.lib.ptrains[idx].periodCounts)
    ensures GetPeriodCounts(r.lib, idx) == UsToCounts(clk, period, lib.ptrains[idx].prescale)
  {
    var train := lib.ptrains[idx];
    Outcome(lib.(ptrains := lib.ptrains[idx := train.(periodCounts := UsToCounts(clk, period, train.prescale))]), 0)
  }

  /** pSetPeriodNumberOnly: stores the period limit and nothing else. */
  function SetPeriodNumberOnly(lib: Lib, idx: u8, limit: u16): (r: Outcome)
    requires Valid(lib) && idx < NUMBER_OF_PTRAINS
    ensures Valid(r.lib)
    ensures r.code == 0
    ensures OnlyTrainChanged(lib, r.lib, idx) && r.lib.ptrainCount == lib.ptrainCount
    ensures r.lib.ptrains[idx] == lib.ptrains[idx].(periodNumLimit := r.lib.ptrains[idx].periodNumLimit)
    ensures GetPeriodNumber(r.lib, idx) == limit
  {
    Outcome(lib.(ptrains := lib.ptrains[idx := lib.ptrains[idx].(periodNumLimit := limit)]), 0)
  }

  /** The narrow setters do not re-validate: after a valid configuration, a
      longer pulse written alone is stored as is, past the period. */
  lemma NarrowPulseSetterSkipsValidation(lib: Lib, clk: Clock, idx: u8, pulse: u32)
    requires Valid(lib) && idx < NUMBER_OF_PTRAINS && lib.ptrains[idx].prescale > 0
    requires Fits(clk, pulse, lib.ptrains[idx].prescale)
    requires clk * pulse / lib.ptrains[idx].prescale > lib.ptrains[idx].periodCounts
    ensures var r := SetPulseOnlyUs(lib, clk, idx, pulse);
            r.code == 0 && GetPulseCounts(r.lib, idx) > GetPeriodCounts(r.lib, idx)
  {
    UsToCountsExact(clk, pulse, lib.ptrains[idx].prescale);
  }

  /** pIsValidPTrain: an index is valid once it has been handed out. */
  function IsValidPTrain(lib: Lib, test: u8): bool {
    test < lib.ptrainCount
  }

  /** Every index pNewPTrain hands out is valid afterwards, and the answer
      ERROR_PTRAIN_IDX never is. */
  lemma NewPTrainIsValid(lib: Lib)
    requires Valid(lib)
    ensures var r := NewPTrain(lib);
            IsValidPTrain(r.lib, r.code) <==> r.code != ERROR_PTRAIN_IDX
  {
  }
}
