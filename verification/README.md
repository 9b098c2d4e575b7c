# PulseTrain in Dafny

A functional model of the PulseTrain Arduino library (`pulsetrain.h`). The
library drives many output pins with repeating pulses. It multiplexes them
over the four 16-bit timers of an ATmega (PTIMER1, PTIMER3, PTIMER4,
PTIMER5). The model has four parts:

- **Pulse-train registry.** A table of 32 `ptrain_t` records. Each holds a
  pin, a timer binding, pulse and period ticks, a period limit and a prescale.
  `ptrain_count` is the allocation counter.
- **Timer membership.** A table of four `timer16control_t` records. Each
  holds a dense list of up to 12 member trains and the aggregate pulse,
  period and limit values that the interrupt uses.
- **Timer lifecycle.** Start, stop, setup and the activity queries. A timer
  is active when its three clock-select bits are not all zero.
- **Interrupt state machine.** `pHandleInterrupts` is one pure step over one
  timer. A run iterates that step while the hardware would keep calling it.

All state lives in one immutable record, `PulseTypes.Lib`. It holds the two
tables, `ptrain_count`, the abstract hardware of each timer, the last level
written to each pin, and the set of pins put in OUTPUT mode. The abstract
hardware is the clock-select bits, the compare-interrupt enable, the counter
and the compare target. Every operation is a function from a `Lib` to a new
`Lib`, usually paired with the `uint8_t` code the C function returns.

The C widths are written out:

- `u8`, `u16` and `u32` are the unsigned C widths.
- Every `uint16_t` that is incremented or assigned is reduced `% 65536`.
- `US_TO_COUNTS` wraps the `unsigned long` product `% 2^32` before dividing,
  then truncates the quotient to 16 bits.
- The clock rate `CLOCKCYCLESPERMICROSECOND` is a positive parameter, `Clock`.

Points where the code's behaviour is easy to misread, all modelled as written:

- `pAttach` stores pAddToTimer's answer as `timer_index` (pulsetrain.h:327).
  That answer is the new member count, slot + 1 (pulsetrain.h:442, 457). The
  field's comment gives its range as 0 to PTRAINS_PER_TIMER - 1
  (pulsetrain.h:89).
- `pRemoveFromTimer` slides the entries from `timer_index + 1` on
  (pulsetrain.h:467). No train is renumbered.
- `pAddToTimer` writes the member list without a capacity check
  (pulsetrain.h:438).
- `pSetTimerPrescale` takes a `uint8_t` (pulsetrain.h:411). Its case labels
  for 1024 and 256 (pulsetrain.h:415-419) can never match.
- In `pHandleInterrupts` the `default` label sits on the `PDC_INIT` body
  (pulsetrain.h:227-228).
- The period count is incremented before it is compared with the limit
  (pulsetrain.h:211 and 222, 240-241). A limit of 0 therefore still gives
  one period.
- In continuous mode the pins are written HIGH once, in the `PDC_INIT` step
  (pulsetrain.h:230-234). `PDC_RUNNING` writes no pin until the limit is
  reached, then writes them LOW (pulsetrain.h:242-247).
- `_pSetPulseUS` compares pulse and period in microseconds
  (pulsetrain.h:341). It converts each one to ticks separately
  (pulsetrain.h:353-354), so truncation can make the two tick counts equal.
- Timer 3's enable writes `TCCR3B &= bit_prescale` (pulsetrain.h:168).
  Timers 1, 4 and 5 OR the code in.

## Model

| member | source | states |
|---|---|---|
| PulseTypes.Boot | pulsetrain.h:136-142 | The statically zeroed tables satisfy the model's invariant, with no train handed out and no timer holding members |
| Prescale.ChoosePrescale | pulsetrain.h:341-352 | The stored prescale is always on the whitelist {1, 8, 64, 256, 1024}; it equals the requested one exactly when that is on the whitelist, and is 8 otherwise |
| Prescale.UsToCounts | pulsetrain.h:81 | When neither the 32-bit product nor the 16-bit result wraps, the tick count is the floor of clk*us/scale: counts*scale <= clk*us < (counts+1)*scale |
| Prescale.UsToCountsExact | pulsetrain.h:81 | Without wrap, US_TO_COUNTS equals clk*us/scale exactly |
| Prescale.UsToCountsMonotone | pulsetrain.h:81 | A shorter time never converts to more ticks than a longer one that does not wrap |
| Prescale.ShorterPulseCanEqualPeriodTicks | pulsetrain.h:81 | Truncation can give a pulse shorter than its period the same tick count (1 us and 2 us at 16 ticks/us, prescale 1024, both 0) |
| Prescale.TimerPrescaleCode | pulsetrain.h:411-432 | The clock-select code for a byte prescale is 1..3; it stands for that prescale exactly when the prescale is 1, 8 or 64, and every byte other than 8 and 64 gets the default code 0x01 |
| Prescale.CodeForTrainPrescale | pulsetrain.h:455 | A train's 16-bit prescale reaches the timer as a byte: 1, 8 and 64 get their own divisor, 256 and 1024 get code 0x01 (undivided clock), as does every prescale whose low byte is neither 8 nor 64, including the 0 of a train never handed out |
| Registry.NewPTrain | pulsetrain.h:298-309 | Below 32 trains: answers the current count, increments it, sets that train's prescale to 8 and changes nothing else; at 32: answers 255 and changes nothing |
| Registry.NewPTrainsAreSequential | pulsetrain.h:298-309 | k successive allocations answer count, count+1, ... up to 31, then 255 for every later call, and the count ends at min(count+k, 32) |
| Registry.IsValidPTrain | pulsetrain.h:316-318 | An index is valid iff it is below the number of trains handed out; Registry.NewPTrainIsValid states that every index pNewPTrain answers is valid afterwards and 255 never is |
| Registry.GetPulseCounts | pulsetrain.h:392-394 | Reads the train's pulse ticks; Registry.ConfigureReadBack states they are floor(clk*pulse/prescale) after a successful configuration without wrap |
| Registry.GetPeriodCounts | pulsetrain.h:396-398 | Reads the train's period ticks; Registry.ConfigureReadBack states they are floor(clk*period/prescale) after a successful configuration without wrap |
| Registry.GetPeriodNumber | pulsetrain.h:400-402 | Reads the train's period limit; Registry.ConfigureReadBack and Registry.SetPeriodNumberOnly state it is the limit last configured |
| Registry.NewPTrainIsValid | pulsetrain.h:316-318 | An index handed out by pNewPTrain passes pIsValidPTrain, and the error answer 255 does not |
| Registry.SetPulseUsPrescaled | pulsetrain.h:335-366 | Index >= 32 answers 255 with nothing changed; pulse >= period with period != 0 answers 254 with nothing changed; otherwise answers 0 and stores the whitelisted prescale (else 8), both tick counts converted with it, and the limit, touching no other train or field |
| Registry.SetPulseUs | pulsetrain.h:368-373 | Same error answers and frame as the prescaled form; on success a prescale already on the whitelist is kept, any other (such as the 0 of a train never handed out) is replaced by 8, and the counts are converted with the prescale stored |
| Registry.ConfigureReadBack | pulsetrain.h:392-402 | After a successful configuration without wrap, the getters read back floor(clk*period/prescale), floor(clk*pulse/prescale) and the limit |
| Registry.ConfiguredPulseWithinPeriod | pulsetrain.h:341-354 | A successful configuration with pulse < period and a non-wrapping period stores pulse ticks <= period ticks |
| Registry.SetPulseOnlyUs | pulsetrain.h:375-379 | Answers 0, changes only the train's pulse ticks, which read back as the pulse converted with the train's existing prescale |
| Registry.SetPeriodOnlyUs | pulsetrain.h:380-384 | Answers 0, changes only the train's period ticks, which read back as the period converted with the train's existing prescale |
| Registry.SetPeriodNumberOnly | pulsetrain.h:385-390 | Answers 0, changes only the train's limit, which reads back as given |
| Registry.NarrowPulseSetterSkipsValidation | pulsetrain.h:375-379 | The narrow pulse setter accepts a pulse longer than the stored period and stores it, with answer 0 |
| Membership.SetTimerPrescale | pulsetrain.h:411-432 | Answers 0 and changes only the timer's clock-select code, which stands for the given prescale iff it is 1, 8 or 64 |
| Membership.ReloadToTimer | pulsetrain.h:445-458 | Copies the train's pulse ticks, period ticks and limit into the timer the train names, sets its code from the train's prescale, keeps every member list, and answers that timer's member count |
| Membership.AddToTimer | pulsetrain.h:434-443 | The timer's member list grows by exactly the train at its end, with every other list byte, its period count and its state kept; the reload goes to the timer the train names, whose count is answered, and when that is another timer this one's aggregate is kept too |
| Membership.Attach | pulsetrain.h:320-333 | Index >= 32 answers 255 with nothing changed; otherwise records the pin byte and timer, appends the train by writing list slot n and no other, stores the new count n+1 as `timer_index`, loads the train's values into the timer, adds the pin to the outputs and answers the index |
| Membership.SlideLeft | pulsetrain.h:467-470 | The slide loop moves each entry from position i-1 to n-2 one place left and keeps every other entry, including the last |
| Membership.RemoveFromTimer | pulsetrain.h:460-477 | On an empty timer answers 252 with nothing changed; otherwise entries below the stored index stay, entries from index+1 to count-1 move left one place, the count drops by one, no train is rewritten, and the answer is 251 |
| Membership.Stop | pulsetrain.h:404-409 | Removes the train from the timer it names and stores the removal answer (251 or 252) as its `timer_index`; 251 exactly when that timer had members |
| Membership.ClearTimerOfPTrains | pulsetrain.h:479-482 | The timer's member list becomes empty and nothing else changes |
| Lifecycle.StopTimer | pulsetrain.h:519-544 | Answers 0; a real timer ends inactive with its compare interrupt off, membership and every other record kept; any other timer value changes nothing |
| Lifecycle.EnableIsr | pulsetrain.h:146-191 | Compare target SMALL_COUNT, counter cleared, interrupt on; timers 1, 4, 5 become active when their code is non-zero, while a stopped timer 3 stays inactive |
| Lifecycle.StartTimer | pulsetrain.h:496-517 | An active or memberless timer answers 253 with nothing changed; otherwise the period count is 0, the state is PDC_INIT iff the period ticks are 0 (else PPULSE_LO), the timer is enabled and the answer is 0 |
| Lifecycle.StartTwiceIsRejected | pulsetrain.h:501-516 | A second start of a timer the first start activated answers 253 and changes nothing, period count included |
| Lifecycle.StopThenRestart | pulsetrain.h:519-522 | A stopped timer keeps its members and restarts with period count 0; it is active again when its clock-select code is non-zero, except timer 3, which stays inactive |
| Lifecycle.SetupFrom | pulsetrain.h:548-551 | The setup loop from timer i leaves timers below i alone and stops each later one (inactive, interrupt off) with state POFF |
| Lifecycle.SetupTimers | pulsetrain.h:546-553 | Every timer ends inactive with its interrupt off and state POFF, memberships, aggregates, pins and outputs untouched; answers 0 |
| Lifecycle.StartPTrain | pulsetrain.h:311-314 | Starting through a train changes nothing when the train's timer is running or has no members; otherwise that timer restarts its period count at 0, is in PDC_INIT iff its period ticks are 0 (else PPULSE_LO) and is enabled, while every other timer, its hardware, the pins, the outputs and the train table are kept |
| Lifecycle.IsTimerActive | pulsetrain.h:276-293 | A timer is active iff its clock-select bits are non-zero, and a value naming no timer is never active; its meaning is what Lifecycle.StopTimer (always inactive afterwards) and Lifecycle.EnableIsr (active once a non-zero code is ORed in) state |
| Lifecycle.IsPTrainActive | pulsetrain.h:484-494 | True iff the train's timer is active and the entry at the train's stored `timer_index` is the train; as written this reads the slot after the train's own (Scenarios.AttachedActivityReadsNextSlot), and under consistent bookkeeping it answers exactly the timer's activity (Corrected.ConsistentMemberActivity) |
| Scenarios.AttachedActivityReadsNextSlot | pulsetrain.h:484-494 | Right after attaching a train to a timer with n members, the train is a member, yet pIsPTrainActive answers true exactly when the timer is active and the byte already in slot n+1 is the train's index: membership is judged by the slot after the train's own |
| Interrupts.WriteMembers | pulsetrain.h:205-209 | The digitalWrite loop leaves every member pin at the written level and every other pin as it was |
| Interrupts.HandleInterrupt | pulsetrain.h:193-251 | Per state: PPULSE_LO raises the member pins, counts a period, targets the pulse ticks and moves to PPULSE_HI; PPULSE_HI lowers them, moves to PPULSE_LO, targets the period ticks and stops iff periods >= limit; PDC_RUNNING counts a period and on reaching the limit lowers the pins and stops; any other state acts as PDC_INIT. No step changes a member list, an aggregate or the train table |
| Interrupts.Run | pulsetrain.h:255-258 | Repeated interrupts stop early only when the timer no longer fires and never change the member list, its pins or the train table |
| Interrupts.PulseModeRun | pulsetrain.h:203-225 | From PPULSE_LO with p periods done, exactly k = max(limit-p, 1) HIGH pulses occur in 2k interrupts, then the timer is inactive with p+k periods and the pins LOW; with fewer interrupts it still fires |
| Interrupts.PulseModeFinishes | pulsetrain.h:203-225 | Given at least 2k interrupts from PPULSE_LO, the run ends after exactly 2k of them with k HIGH pulses, the timer inactive, p+k periods and the pins LOW |
| Interrupts.PulseModeCutShort | pulsetrain.h:203-225 | Given fewer than 2k interrupts from PPULSE_LO, the timer is still firing and every other step, starting with the first, was a HIGH one |
| Interrupts.ContinuousModeRun | pulsetrain.h:238-249 | From PDC_RUNNING with p periods done, after k = max(limit-p, 1) interrupts the pins go LOW and the timer stops at p+k periods; before that the pins are untouched |
| Interrupts.StartedPulseTrainEmits | pulsetrain.h:501-511 | After a successful start in pulse mode on a timer that comes on, exactly max(limit, 1) HIGH pulses are emitted before the timer goes inactive, with the pins LOW |
| Interrupts.StartedContinuousRunHolds | pulsetrain.h:227-249 | After a successful start in continuous mode, the pins go HIGH once, stay HIGH for max(limit, 1) interrupts, and go LOW as the timer stops |
| Interrupts.Timer3NeverPulsesAfterStop | pulsetrain.h:164-171 | After a stop, a start of timer 3 never makes the interrupt fire, so no pulse comes out |
| Scenarios.AttachThenStopRestores | pulsetrain.h:460-477 | Attaching a train and stopping it again restores the timer's member list, answers 251 and leaves 251 in its `timer_index` |
| Scenarios.AttachStopLeavesNothingToStart | pulsetrain.h:501-502 | After attach then stop on an empty timer, a start is refused with 253 |
| Scenarios.StopDropsTheSuccessor | pulsetrain.h:464-470 | With three trains attached to an empty timer, stopping the first leaves [first, third], and stopping the second leaves [first, second] |
| Scenarios.LoneMemberReadsTheNextSlot | pulsetrain.h:487 | The only member of a running timer is reported inactive when the stale byte in slot 1 is not its index |
| Corrected.AttachFixed | pulsetrain.h:327 | With `timer_index` set to the slot, attaching an unlisted train keeps every member's recorded slot and timer correct |
| Corrected.StopFixed | pulsetrain.h:404-409 | With correct bookkeeping, stopping a member removes exactly that member, shifts the later ones with their recorded slots, and keeps the bookkeeping correct |
| Corrected.ConsistentMemberActivity | pulsetrain.h:484-494 | With correct bookkeeping, pIsPTrainActive of a member answers exactly whether its timer is active |
| Corrected.StopFixedMiddleOfThree | pulsetrain.h:467-470 | With the intended bookkeeping, stopping the middle of three members leaves [first, third], the third recorded at slot 1 |
| Corrected.TimerPrescaleCodeWide | pulsetrain.h:411-432 | With a 16-bit argument, the code stands for the prescale exactly when it is on the whitelist |
| Corrected.WidePrescaleTruncated | pulsetrain.h:455 | Prescale 256 or 1024 gets the undivided clock as written, and its own divisor in the wide form |
| Corrected.EnableIsrFixed | pulsetrain.h:164-171 | ORing the code in makes every timer active when its code is non-zero |
| Corrected.StartTimerFixed | pulsetrain.h:496-517 | With the intended enable, a successful start activates any timer whose code is non-zero |
| Corrected.Timer3RestartsWhenFixed | pulsetrain.h:168 | A stopped timer 3 with members comes back on with the intended enable, and stays off as written |

## Left out

- Register detail of `pEnableISR` and `pStopTimer` is left out because the
  hardware's meaning cannot be checked from the source. This covers TCCRnA,
  TIFRn, the upper bits of TCCRnB and the other bits of TIMSKn. Kept: the
  clock-select bits, the compare-interrupt enable, counter resets and the
  compare target.
- The counter TCNTn is modelled only by its resets, because time passing is
  not modelled.
- The `SIGNAL` vectors are left out. `Interrupts.Run` calls the step in
  sequence for as long as the timer fires.
- Interleaving of interrupts with foreground calls on the volatile
  `timer_array` is left out. The library relies on callers not reconfiguring
  a running timer, and no code enforces it.
- `digitalWrite` and `pinMode` are Arduino calls. They become a pin-to-level
  map and a set of output pins.
- `COUNTS_TO_US` is left out: no function uses it.
- Real time in seconds is left out. Everything stays in ticks.
- Interrupts.Run: takes an explicit bound on the number of interrupts. The
  lemmas show that bound is enough for every run they describe.
- Registry.SetPulseOnlyUs, Registry.SetPeriodOnlyUs: require a non-zero
  stored prescale, because the C code would divide by zero.
- Registry.SetPulseOnlyUs, Registry.SetPeriodOnlyUs, Registry.SetPeriodNumberOnly,
  Registry.GetPulseCounts, Registry.GetPeriodCounts, Registry.GetPeriodNumber,
  Membership.Stop, Membership.RemoveFromTimer, Membership.ReloadToTimer,
  Lifecycle.StartPTrain: require index < 32, because the C code indexes the
  table without a check.
- Membership.AddToTimer, Membership.Attach: require a timer with fewer than
  12 members, because the C code writes past the list without a check.
- Membership.AddToTimer: also requires index < 32, because the reload reads
  the train's record without a check (pulsetrain.h:448).
- Lifecycle.IsPTrainActive: requires `timer_index` < 12. The C code reads the
  list at that index unchecked, and after `pStop` the index is 251 or 252.
- Registry.SetPulseUs: for an index >= 32 the C code reads a prescale out of
  bounds before answering 255. The model answers 255 without that read,
  because the value read cannot change the answer.
- Timer arguments outside the four timers are modelled only where the source
  handles them (`pIsTimerActive`, `pStopTimer`). Elsewhere the C code indexes
  `timer_array` with them.

## Findings

| source | as written | input that shows it | evidently intended | confidence | as-written member | corrected member |
|---|---|---|---|---|---|---|
| pulsetrain.h:327 | `pAttach` stores pAddToTimer's answer, the new count (slot + 1), as `timer_index`. `pRemoveFromTimer` then drops the slot after the train's own, and `pIsPTrainActive` reads that slot | trains a, b, c attached to an empty timer, then `pStop(a)`: the list becomes [a, c] | `timer_index` is the slot (the field comment says 0 to PTRAINS_PER_TIMER - 1), and the trains that slide left get their slots renumbered | high; not executed | Scenarios.StopDropsTheSuccessor | Corrected.StopFixed |
| pulsetrain.h:411 | `pSetTimerPrescale` takes a `uint8_t`, so prescale 256 and 1024 arrive as 0 and fall to code 0x01 | a train configured with prescale 256, then attached: its ticks are computed for /256 but the timer counts at the undivided clock | codes 0x04 and 0x05, as the `case` labels list | high; not executed | Prescale.CodeForTrainPrescale | Corrected.TimerPrescaleCodeWide |
| pulsetrain.h:168 | timer 3's enable writes `TCCR3B &= bit_prescale`, where the other timers OR the code in | `pSetupTimers` or `pStopTimer(PTIMER3)`, then `pStartTimer(PTIMER3)`: the timer stays inactive and no pulse comes out | `TCCR3B \|= bit_prescale` | high; not executed | Interrupts.Timer3NeverPulsesAfterStop | Corrected.StartTimerFixed |

The operational model keeps the behaviour as written. The corrected members
stand beside it and carry the intended properties.
