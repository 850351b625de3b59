/**
 * The actuating node (slave.c): the temperature-to-duty-cycle table
 * `get_duty_cycle` and one iteration of the main loop, which updates the
 * PWM compare register OCR0 on change and the LED and heater bits of PORTC
 * on every received byte.
 */
module Slave {
  import opened Avr

  // ---------------------------------------------------------------------
  // Duty-cycle table (get_duty_cycle)
  // ---------------------------------------------------------------------

  /** The percentages the cooler can be driven at. */
  const DutyLevels: set<Byte> := {0, 50, 60, 70, 80, 90, 100}

  /** `get_duty_cycle`: the cooling duty cycle, in percent, for a received temperature. */
  function DutyCycle(temperature: Byte): (duty: Byte)
    ensures duty in DutyLevels
  {
    if 25 <= temperature < 30 then 50
    else if 30 <= temperature < 35 then 60
    else if 35 <= temperature < 40 then 70
    else if 40 <= temperature < 45 then 80
    else if 45 <= temperature < 50 then 90
    else if 50 <= temperature <= 55 then 100
    else 0
  }

  /** A row of the decision table: temperatures in [low, high) get duty. */
  datatype Band = Band(low: Byte, high: Byte, duty: Byte)

  /** The decision table as data; the last band is closed at 55, so its bound is 56. */
  const DutyBands: seq<Band> := [
    Band(25, 30, 50), Band(30, 35, 60), Band(35, 40, 70),
    Band(40, 45, 80), Band(45, 50, 90), Band(50, 56, 100)
  ]

  /** The duty of the first band containing t, and 0 when none does. */
  function BandDuty(bands: seq<Band>, t: Byte): Byte {
    if bands == [] then 0
    else if bands[0].low <= t < bands[0].high then bands[0].duty
    else BandDuty(bands[1..], t)
  }

  /** The if-chain computes exactly the band table. */
  lemma DutyCycleIsBandTable(t: Byte)
    ensures DutyCycle(t) == BandDuty(DutyBands, t)
  {
    var b := DutyBands;
    assert b[1..][1..][1..][1..][1..][1..] == [];
    assert BandDuty(b[1..][1..][1..][1..][1..][1..], t) == 0;
    assert BandDuty(b[1..][1..][1..][1..][1..], t) == if 50 <= t < 56 then 100 else 0;
    assert BandDuty(b[1..][1..][1..][1..], t) == if 45 <= t < 50 then 90 else BandDuty(b[1..][1..][1..][1..][1..], t);
    assert BandDuty(b[1..][1..][1..], t) == if 40 <= t < 45 then 80 else BandDuty(b[1..][1..][1..][1..], t);
    assert BandDuty(b[1..][1..], t) == if 35 <= t < 40 then 70 else BandDuty(b[1..][1..][1..], t);
    assert BandDuty(b[1..], t) == if 30 <= t < 35 then 60 else BandDuty(b[1..][1..], t);
  }

  /** No cooling outside [25, 55], the sentinel 255 included, and some cooling inside it. */
  lemma DutyCycleZeroExactlyOutside(t: Byte)
    ensures DutyCycle(t) == 0 <==> t < 25 || t > 55
  {
  }

  /** The band edges: closed on the left, open on the right, except the last. */
  lemma DutyCycleBoundaries()
    ensures DutyCycle(24) == 0 && DutyCycle(25) == 50 && DutyCycle(29) == 50
    ensures DutyCycle(30) == 60 && DutyCycle(49) == 90 && DutyCycle(50) == 100
    ensures DutyCycle(54) == 100 && DutyCycle(55) == 100 && DutyCycle(56) == 0
    ensures DutyCycle(255) == 0
  {
  }

  /** Up to 55 degrees, a warmer reading never gets less cooling. */
  lemma DutyCycleMonotone(a: Byte, b: Byte)
    requires a <= b <= 55
    ensures DutyCycle(a) <= DutyCycle(b)
  {
  }

  // ---------------------------------------------------------------------
  // PWM register
  // ---------------------------------------------------------------------

  /**
   * The OCR0 value for a duty cycle: duty/100 of the register's maximum 255,
   * rounded toward zero.
   */
  function OcrValue(duty: Byte): Byte
    requires duty <= 100
  {
    duty * 255 / 100
  }

  /** The register values of the seven duty levels; distinct levels give distinct values. */
  lemma OcrValues()
    ensures OcrValue(0) == 0 && OcrValue(50) == 127 && OcrValue(60) == 153
    ensures OcrValue(70) == 178 && OcrValue(80) == 204 && OcrValue(90) == 229
    ensures OcrValue(100) == 255
  {
  }

  // ---------------------------------------------------------------------
  // LED and heater bits of PORTC
  // ---------------------------------------------------------------------

  /** PORTC0 drives the LED, PORTC1 the heater. */
  const LedMask: bv8 := 1
  const HeaterMask: bv8 := 2

  predicate LedOn(portC: bv8) {
    portC & LedMask != 0
  }

  predicate HeaterOn(portC: bv8) {
    portC & HeaterMask != 0
  }

  /** The range in which the LED blinks. */
  predicate BlinkRange(temperature: Byte) {
    55 < temperature <= 100
  }

  /** The range in which the heater runs. */
  predicate HeatRange(temperature: Byte) {
    temperature < 20
  }

  /** PORTC after one iteration: the LED and heater bits recomputed, the other six kept. */
  function NextPortC(portC: bv8, temperature: Byte): (next: bv8)
    ensures LedOn(next) <==> BlinkRange(temperature) && !LedOn(portC)
    ensures HeaterOn(next) <==> HeatRange(temperature)
    ensures next & !(LedMask | HeaterMask) == portC & !(LedMask | HeaterMask)
  {
    var led: bv8 := if BlinkRange(temperature) && !LedOn(portC) then LedMask else 0;
    var heater: bv8 := if HeatRange(temperature) then HeaterMask else 0;
    (portC & !(LedMask | HeaterMask)) | led | heater
  }

  /** Two cycles in the blink range restore the LED. */
  lemma BlinkTwiceRestoresLed(portC: bv8, temperature: Byte)
    requires BlinkRange(temperature)
    ensures LedOn(NextPortC(NextPortC(portC, temperature), temperature)) == LedOn(portC)
    ensures LedOn(NextPortC(portC, temperature)) != LedOn(portC)
  {
  }

  /** The source's in-place bit operations compute NextPortC. */
  lemma PortCOperations(portC: bv8, temperature: Byte)
    ensures var afterLed := if BlinkRange(temperature) then portC ^ LedMask else portC & !LedMask;
      (if HeatRange(temperature) then afterLed | HeaterMask else afterLed & !HeaterMask) ==
      NextPortC(portC, temperature)
  {
  }

  // ---------------------------------------------------------------------
  // One iteration of the main loop
  // ---------------------------------------------------------------------

  /** The registers and the change detector the loop works on. */
  datatype State = State(oldDuty: Byte, ocr0: Byte, portC: bv8)

  /** The power-on state: `old_duty_cycle` 0 and the registers at their reset value 0. */
  const PowerOn := State(0, 0, 0)

  /** OCR0 holds the register value of the last duty cycle written. */
  predicate OcrTracksDuty(s: State) {
    s.oldDuty <= 100 && s.ocr0 == OcrValue(s.oldDuty)
  }

  /** The state after the loop has received one byte. */
  function NextState(s: State, temperature: Byte): State {
    var duty := DutyCycle(temperature);
    State(duty, if duty != s.oldDuty then OcrValue(duty) else s.ocr0, NextPortC(s.portC, temperature))
  }

  /**
   * OCR0 is written only when the duty cycle changes, and afterwards the
   * change detector holds the new duty cycle.
   */
  lemma OcrWrittenOnlyOnChange(s: State, temperature: Byte)
    ensures NextState(s, temperature).oldDuty == DutyCycle(temperature)
    ensures DutyCycle(temperature) == s.oldDuty ==> NextState(s, temperature).ocr0 == s.ocr0
    ensures OcrTracksDuty(s) ==> OcrTracksDuty(NextState(s, temperature))
    ensures OcrTracksDuty(s) ==>
      (NextState(s, temperature).ocr0 != s.ocr0 <==> DutyCycle(temperature) != s.oldDuty)
  {
  }

  /** A repeated byte leaves OCR0 and the change detector as the first one left them. */
  lemma RepeatedByteKeepsOcr(s: State, temperature: Byte)
    ensures var s1 := NextState(s, temperature);
      NextState(s1, temperature).ocr0 == s1.ocr0 &&
      NextState(s1, temperature).oldDuty == s1.oldDuty
  {
  }

  /** The state after a sequence of received bytes. */
  function Run(s: State, temperatures: seq<Byte>): State
    decreases |temperatures|
  {
    if temperatures == [] then s else Run(NextState(s, temperatures[0]), temperatures[1..])
  }

  /**
   * From power-on, after any non-empty sequence of bytes, OCR0 holds the
   * register value for the duty cycle of the last byte, and the heater bit
   * follows the last byte.
   */
  lemma {:induction false} RunTracksLastByte(s: State, temperatures: seq<Byte>)
    requires OcrTracksDuty(s)
    requires temperatures != []
    ensures var last := temperatures[|temperatures| - 1];
      Run(s, temperatures).ocr0 == OcrValue(DutyCycle(last)) &&
      HeaterOn(Run(s, temperatures).portC) == HeatRange(last)
    decreases |temperatures|
  {
    OcrWrittenOnlyOnChange(s, temperatures[0]);
    if |temperatures| > 1 {
      RunTracksLastByte(NextState(s, temperatures[0]), temperatures[1..]);
    }
  }

  /** The actuating node's registers and change detector. */
  class Controller {
    var oldDuty: Byte
    var ocr0: Byte
    var portC: bv8

    /** The controller's fields as a value. */
    function Snapshot(): State
      reads this
    {
      State(oldDuty, ocr0, portC)
    }

    constructor ()
      ensures Snapshot() == PowerOn && OcrTracksDuty(Snapshot())
    {
      oldDuty, ocr0, portC := 0, 0, 0;
    }

    /** One iteration of the main loop with the byte the SPI wait delivered. */
    method Step(temperature: Byte)
      modifies this
      ensures Snapshot() == NextState(old(Snapshot()), temperature)
    {
      UpdateCooler(temperature);
      UpdateLedAndHeater(temperature);
    }

    /** The duty-cycle half of the loop body: OCR0 is written only on a change. */
    method UpdateCooler(temperature: Byte)
      modifies this`oldDuty, this`ocr0
      ensures oldDuty == DutyCycle(temperature)
      ensures ocr0 == if oldDuty != old(oldDuty) then OcrValue(oldDuty) else old(ocr0)
    {
      var newDuty := DutyCycle(temperature);
      if newDuty != oldDuty {
        ocr0 := OcrValue(newDuty);
        oldDuty := newDuty;
      }
    }

    /** The PORTC half of the loop body: the LED and heater bits, on every byte. */
    method UpdateLedAndHeater(temperature: Byte)
      modifies this`portC
      ensures portC == NextPortC(old(portC), temperature)
    {
      PortCOperations(portC, temperature);
      if 55 < temperature && temperature <= 100 {
        portC := portC ^ LedMask;       // toggle the LED
      } else {
        portC := portC & !LedMask;      // LED off
      }
      // the `>= 0` half of the heater test always holds for a uint8_t
      if temperature < 20 {
        portC := portC | HeaterMask;    // heater on
      } else {
        portC := portC & !HeaterMask;   // heater off
      }
    }
  }
}
