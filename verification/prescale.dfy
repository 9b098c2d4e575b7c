/** The prescale table: microseconds to ticks (US_TO_COUNTS), the whitelist of
    prescale factors a train may carry, and the clock-select code a timer gets
    for a factor (pSetTimerPrescale). */
module Prescale {
  import opened PulseTypes

  /** The factors `_pSetPulseUS` accepts; anything else becomes the default 8. */
  predicate IsSupportedPrescale(p: int) {
    p == 1 || p == 8 || p == 64 || p == 256 || p == 1024
  }

  /** The prescale `_pSetPulseUS` stores for a requested one. */
  function ChoosePrescale(requested: u16): (p: u16)
    ensures IsSupportedPrescale(p)
    ensures IsSupportedPrescale(requested) <==> p == requested
    ensures !IsSupportedPrescale(requested) ==> p == DEFAULT_PTRAIN_PRESCALE
  {
    if IsSupportedPrescale(requested) then requested else DEFAULT_PTRAIN_PRESCALE
  }

  /** US_TO_COUNTS(us, scale) stored into a `uint16_t`: the product of the
      `long` clock rate and the `uint32_t` microseconds is an `unsigned long`
      (32 bits on the target), divided by the scale, then truncated to 16 bits. */
  function UsToCounts(clk: Clock, us: u32, scale: u16): (counts: u16)
    requires scale > 0
    ensures clk * us < 0x1_0000_0000 && clk * us / scale < 0x1_0000 ==>
              counts * scale <= clk * us < (counts + 1) * scale
  {
    var product := (clk * us) % 0x1_0000_0000;
    UnwrappedProduct(clk * us, scale);
    Wrap16(product / scale)
  }

  /** With no wrap, the stored value is the floor quotient itself. */
  lemma UnwrappedProduct(x: nat, scale: u16)
    requires scale > 0
    ensures x < 0x1_0000_0000 && x / scale < 0x1_0000 ==>
              var q := Wrap16(x % 0x1_0000_0000 / scale);
              q * scale <= x < (q + 1) * scale
  {
    if x < 0x1_0000_0000 && x / scale < 0x1_0000 {
      assert x % 0x1_0000_0000 == x;
      assert Wrap16(x / scale) == x / scale;
      DivFloor(x, scale);
    }
  }

  /** No wrap happens in US_TO_COUNTS. */
  predicate Fits(clk: Clock, us: u32, scale: u16)
    requires scale > 0
  {
    clk * us < 0x1_0000_0000 && clk * us / scale < 0x1_0000
  }

  /** When nothing wraps, the tick count is exactly floor(clk * us / scale). */
  lemma UsToCountsExact(clk: Clock, us: u32, scale: u16)
    requires scale > 0 && Fits(clk, us, scale)
    ensures UsToCounts(clk, us, scale) == clk * us / scale
  {
    var x := clk * us;
    assert x % 0x1_0000_0000 == x;
    assert Wrap16(x / scale) == x / scale;
  }

  /** The quotient is the floor: q * d <= x < (q + 1) * d. */
  lemma DivFloor(x: nat, d: nat)
    requires d > 0
    ensures (x / d) * d <= x < (x / d + 1) * d
  {
    var q, r := x / d, x % d;
    assert x == q * d + r;
    assert (q + 1) * d == q * d + d;
  }

  lemma MulMonotone(c: nat, x: nat, y: nat)
    requires x <= y
    ensures c * x <= c * y
  {
    assert c * y == c * x + c * (y - x);
  }

  lemma DivMonotone(a: nat, b: nat, d: nat)
    requires a <= b && d > 0
    ensures a / d <= b / d
  {
    DivFloor(a, d);
    DivFloor(b, d);
    if a / d > b / d {
      MulMonotone(d, b / d + 1, a / d);
      assert false;
    }
  }

  /** A shorter pulse never gets more ticks than a longer one, as long as the
      longer one does not wrap. */
  lemma UsToCountsMonotone(clk: Clock, us1: u32, us2: u32, scale: u16)
    requires scale > 0 && us1 <= us2 && Fits(clk, us2, scale)
    ensures UsToCounts(clk, us1, scale) <= UsToCounts(clk, us2, scale)
  {
    var x1, x2 := clk * us1, clk * us2;
    MulMonotone(clk, us1, us2);
    DivMonotone(x1, x2, scale);
    assert x1 % 0x1_0000_0000 == x1;
    assert x2 % 0x1_0000_0000 == x2;
    assert x1 / scale < 0x1_0000;
    assert UsToCounts(clk, us1, scale) == x1 / scale;
    assert UsToCounts(clk, us2, scale) == x2 / scale;
  }

  /** Truncation can make a pulse strictly shorter than its period come out
      with as many ticks as the period: 1 us and 2 us at 16 ticks/us and
      prescale 1024 both give 0 ticks. */
  lemma ShorterPulseCanEqualPeriodTicks()
    ensures UsToCounts(16, 1, 1024) == UsToCounts(16, 2, 1024) == 0
  {
  }

  /** The clock-select code pSetTimerPrescale writes for its `uint8_t`
      argument. The source also lists 1024 and 256, which a `uint8_t` can never
      equal; 64 gives 0x03, 8 gives 0x02 and every other byte the default 0x01. */
  function TimerPrescaleCode(prescale: u8): (code: u8)
    ensures 1 <= code <= 3
    ensures DivisorOfCode(code) == prescale <==> prescale in {1, 8, 64}
    ensures prescale != 8 && prescale != 64 ==> code == 0x01
  {
    if prescale == 64 then 0x03
    else if prescale == 8 then 0x02
    else 0x01
  }

  /** The clock divisor the ATmega clock-select bits 1..5 stand for. */
  function DivisorOfCode(code: int): nat {
    if code == 1 then 1
    else if code == 2 then 8
    else if code == 3 then 64
    else if code == 4 then 256
    else if code == 5 then 1024
    else 0
  }

  /** The code a timer receives for a train's `uint16_t` prescale, after the
      implicit narrowing to `uint8_t` at the call in pReloadToTimer. */
  function CodeForTrainPrescale(prescale: u16): (code: u8)
    ensures prescale in {1, 8, 64} ==> DivisorOfCode(code) == prescale
    ensures prescale in {256, 1024} ==> code == 0x01
    ensures Wrap8(prescale) != 8 && Wrap8(prescale) != 64 ==> code == 0x01
  {
    TimerPrescaleCode(Wrap8(prescale))
  }
}
