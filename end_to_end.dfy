/**
 * The two nodes together: every byte the sensing node sends during a step
 * is received, in order, by the actuating node.
 */
module EndToEnd {
  import opened Avr
  import Master
  import Slave

  /** The actuating node's state after it has received every byte sent during the effects. */
  function Deliver(s: Slave.State, effs: seq<Master.Effect>): Slave.State {
    Slave.Run(s, Master.Sent(effs))
  }

  /**
   * Gate open, reading 42: 42 is sent, the cooler runs at 80 % (OCR0 = 204),
   * and the LED and the heater are off.
   */
  lemma ActiveReadingCools(oldTemperature: Byte, s: Slave.State)
    requires Slave.OcrTracksDuty(s)
    ensures Master.Sent(Master.StepEffects(oldTemperature, true, 42)) == [42]
    ensures var after := Deliver(s, Master.StepEffects(oldTemperature, true, 42));
      after.oldDuty == 80 && after.ocr0 == 204 &&
      !Slave.LedOn(after.portC) && !Slave.HeaterOn(after.portC)
  {
    Master.StepSends(oldTemperature, true, 42);
    Slave.OcrValues();
    Slave.RunTracksLastByte(s, [42]);
  }

  /**
   * Gate open, reading 58: too warm for the table, so the cooler is off
   * (OCR0 = 0), the LED changes state and the heater is off.
   */
  lemma ActiveHotReadingBlinks(oldTemperature: Byte, s: Slave.State)
    requires Slave.OcrTracksDuty(s)
    ensures var after := Deliver(s, Master.StepEffects(oldTemperature, true, 58));
      after.oldDuty == 0 && after.ocr0 == 0 &&
      Slave.LedOn(after.portC) != Slave.LedOn(s.portC) && !Slave.HeaterOn(after.portC)
  {
    Master.StepSends(oldTemperature, true, 58);
    Slave.OcrValues();
    Slave.RunTracksLastByte(s, [58]);
  }

  /**
   * Gate closing: the closed message is shown and the sentinel sent, which
   * turns the cooler, the LED and the heater off; while the gate stays
   * closed nothing more is sent or shown.
   */
  lemma GateClosing(oldTemperature: Byte, screen: string, s: Slave.State)
    requires oldTemperature != Master.Sentinel
    requires Slave.OcrTracksDuty(s)
    ensures Master.Screen(screen, Master.StepEffects(oldTemperature, false, 0)) == Master.GateClosedText
    ensures var after := Deliver(s, Master.StepEffects(oldTemperature, false, 0));
      after.oldDuty == 0 && after.ocr0 == 0 &&
      !Slave.LedOn(after.portC) && !Slave.HeaterOn(after.portC)
    ensures Master.StepEffects(Master.NextTemperature(oldTemperature, false, 0), false, 0) == []
  {
    Master.StepScreen(screen, oldTemperature, false, 0);
    Master.StepSends(oldTemperature, false, 0);
    Slave.OcrValues();
    Slave.RunTracksLastByte(s, [Master.Sentinel]);
  }
}
