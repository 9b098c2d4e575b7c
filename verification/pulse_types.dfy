/** Machine widths, sizing constants, return codes and the state record of
    the PulseTrain library (pulsetrain.h). */
module PulseTypes {

  /** The C integer widths used by the library. */
  type u8 = x: int | 0 <= x < 0x100
  type u16 = x: int | 0 <= x < 0x1_0000
  type u32 = x: int | 0 <= x < 0x1_0000_0000

  /** CLOCKCYCLESPERMICROSECOND: a positive `long` constant of the build. */
  type Clock = c: int | 0 < c < 0x8000_0000 witness 16

  /** A `timers16bit_t` naming a real timer: PTIMER1, PTIMER3, PTIMER4, PTIMER5. */
  type TimerId = x: int | 0 <= x < 4

  const PTIMER1: TimerId := 0
  const PTIMER3: TimerId := 1
  const PTIMER4: TimerId := 2
  const PTIMER5: TimerId := 3
  const NUMBER_OF_16BIT_TIMERS: nat := 4

  const NUMBER_OF_PTRAINS: nat := 32
  const PTRAINS_PER_TIMER: nat := 12
  const DEFAULT_PTRAIN_PRESCALE: u16 := 8
  const SMALL_COUNT: u16 := 4

  /** Return codes. */
  const PTRAIN_REMOVED: u8 := 251
  const ERROR_PTRAIN_REMOVED: u8 := 252
  const ERROR_TIMER_RUNNING: u8 := 253
  const ERROR_TIMER_COUNT: u8 := 254
  const ERROR_PTRAIN_IDX: u8 := 255

  /** Values of `pulsed_state` (enum pulse_states). Any other byte is possible
      in the field and is handled by the interrupt's `default` label. */
  const PPULSE_LO: u8 := 0
  const PPULSE_HI: u8 := 1
  const PDC_INIT: u8 := 2
  const PDC_RUNNING: u8 := 3
  const POFF: u8 := 4

  /** Truncation of an arithmetic result stored into a `uint16_t`. */
  function Wrap16(x: int): u16 {
    x % 0x1_0000
  }

  /** Truncation of an `int` passed where a `uint8_t` is expected. */
  function Wrap8(x: int): u8 {
    x % 0x100
  }

  datatype Level = Low | High

  /** One `ptrain_t`. */
  datatype PTrain = PTrain(
    pin: u8,
    timerIndex: u8,
    timerNumber: TimerId,
    pulseCounts: u16,
    periodCounts: u16,
    periodNumLimit: u16,
    prescale: u16)

  /** One `timer16control_t`; `ptrainIdxs` always holds PTRAINS_PER_TIMER bytes. */
  datatype TimerCtl = TimerCtl(
    ptrainIdxs: seq<u8>,
    numberOfPtrains: u8,
    numberOfPeriods: u16,
    periodNumLimit: u16,
    pulseCounts: u16,
    periodCounts: u16,
    bitPrescale: u8,
    pulsedState: u8)

  /** The part of a hardware timer the library touches: the three clock-select
      bits of TCCRnB (`divisor`), the compare-match interrupt enable of TIMSKn,
      the counter TCNTn (only its resets are modelled) and the compare target OCRnA. */
  datatype TimerHw = TimerHw(divisor: bv3, compareIrq: bool, counter: u16, compareTarget: u16)

  /** All library state: the two global tables, `ptrain_count`, the abstract
      timer hardware, the last level written to each pin, and the pins put in
      OUTPUT mode. */
  datatype Lib = Lib(
    ptrains: seq<PTrain>,
    timers: seq<TimerCtl>,
    hw: seq<TimerHw>,
    ptrainCount: u8,
    pins: map<u8, Level>,
    outputs: set<u8>)

  /** Result of an operation that returns a `uint8_t` code. */
  datatype Outcome = Outcome(lib: Lib, code: u8)

  predicate TimerValid(c: TimerCtl) {
    && |c.ptrainIdxs| == PTRAINS_PER_TIMER
    && c.numberOfPtrains <= PTRAINS_PER_TIMER
    && forall i :: 0 <= i < c.numberOfPtrains ==> c.ptrainIdxs[i] < NUMBER_OF_PTRAINS
  }

  /** The fixed table sizes, and the facts every operation keeps: no timer holds
      more than PTRAINS_PER_TIMER members, every member is a real train index,
      and `ptrain_count` never passes NUMBER_OF_PTRAINS. */
  predicate Valid(lib: Lib) {
    && |lib.ptrains| == NUMBER_OF_PTRAINS
    && |lib.timers| == NUMBER_OF_16BIT_TIMERS
    && |lib.hw| == NUMBER_OF_16BIT_TIMERS
    && lib.ptrainCount <= NUMBER_OF_PTRAINS
    && forall t :: 0 <= t < |lib.timers| ==> TimerValid(lib.timers[t])
  }

  /** The dense member list of a timer. */
  function Members(c: TimerCtl): seq<u8>
    requires TimerValid(c)
  {
    c.ptrainIdxs[..c.numberOfPtrains]
  }

  /** The pins of the trains listed at positions lo..n-1 of `idxs`. */
  function WrittenPins(ptrains: seq<PTrain>, idxs: seq<u8>, lo: nat, n: nat): set<u8>
    requires n <= |idxs|
    requires forall k :: 0 <= k < n ==> idxs[k] < |ptrains|
  {
    set k | lo <= k < n :: ptrains[idxs[k]].pin
  }

  /** The pins of a timer's members, the ones the interrupt writes. */
  function MemberPins(lib: Lib, t: TimerId): set<u8>
    requires Valid(lib)
  {
    var c := lib.timers[t];
    WrittenPins(lib.ptrains, c.ptrainIdxs, 0, c.numberOfPtrains)
  }

  /** Every pin of `s` was last written with `level`. */
  predicate PinsAt(pins: map<u8, Level>, s: set<u8>, level: Level) {
    forall p :: p in s ==> p in pins && pins[p] == level
  }

  /** No pin outside `s` changed between `a` and `b`. */
  ghost predicate PinsKeptOutside(b: map<u8, Level>, a: map<u8, Level>, s: set<u8>) {
    forall p :: p !in s ==> (p in b <==> p in a) && (p in a ==> b[p] == a[p])
  }

  /** Only train `i` (and possibly `ptrain_count`) may differ between `a` and `b`. */
  predicate OnlyTrainChanged(a: Lib, b: Lib, i: nat)
    requires Valid(a) && Valid(b)
  {
    && b.timers == a.timers
    && b.hw == a.hw
    && b.pins == a.pins
    && b.outputs == a.outputs
    && forall j :: 0 <= j < NUMBER_OF_PTRAINS && j != i ==> b.ptrains[j] == a.ptrains[j]
  }

  /** The all-zero static initialisation of the two tables and `ptrain_count`;
      the hardware starts in whatever state it is given. */
  function Boot(hw: seq<TimerHw>): (lib: Lib)
    requires |hw| == NUMBER_OF_16BIT_TIMERS
    ensures Valid(lib)
    ensures lib.ptrainCount == 0
    ensures forall t :: 0 <= t < NUMBER_OF_16BIT_TIMERS ==> Members(lib.timers[t]) == []
  {
    Lib(
      seq(NUMBER_OF_PTRAINS, _ => PTrain(0, 0, PTIMER1, 0, 0, 0, 0)),
      seq(NUMBER_OF_16BIT_TIMERS, _ => TimerCtl(seq(PTRAINS_PER_TIMER, _ => 0), 0, 0, 0, 0, 0, 0, 0)),
      hw, 0, map[], {})
  }
}
