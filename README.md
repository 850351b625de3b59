# Temperature control system: a Dafny model

This project models the two AVR firmware programs of a two-node temperature
control loop and proves properties of them.

- **The sensing (master) node**, `master.c`. Each cycle it checks the analog
  comparator gate. While the gate is open it reads the temperature and always
  sends it over SPI. It redraws the LCD only when the reading differs from
  `old_temperature`: "Out of range" above 100, otherwise "Temperature: " and
  the reading's decimal digits. While the gate is closed it uses the sentinel
  255. On the transition into that state it shows "      A < B" and sends 255.
  The decimal digits come from `int_to_str`. It extracts the digits least
  significant first into a 4-byte scratch buffer, then copies them out
  reversed and adds a NUL.
- **The actuating (slave) node**, `slave.c`. For every received byte it looks
  up a cooling duty cycle in a piecewise-constant table (`get_duty_cycle`). It
  writes the PWM compare register OCR0 only when the duty cycle differs from
  `old_duty_cycle`. On every byte it updates two bits of PORTC. The LED on
  bit 0 toggles for 55 < t <= 100 and is cleared otherwise. The heater on
  bit 1 is set exactly when t < 20.

Layout:

- `avr.dfy`: module `Avr`, the `Byte` type (`uint8_t`).
- `master.dfy`: module `Master`. This holds the encoder: the `Decimal` function
  that specifies it, the imperative `IntToStr` over arrays, and the two
  round-trip lemmas. It holds the effects of a loop iteration as a log of
  `Send`, `ClearScreen` and `WriteChar` events. It holds two observers of that
  log: `Sent`, the bytes on the wire, and `Screen`, what the LCD shows. It also
  holds the class `Controller` with the `oldTemperature` field and a `Step`
  method. `Step` calls `SendTemperature`, `DisplayOnLcd` and `IntToStr` in the
  source's order.
- `slave.dfy`: module `Slave`. This holds `DutyCycle` and an independent band
  table it is proved equal to. It holds the OCR0 scaling, the PORTC bit update
  `NextPortC`, a value-level `NextState`, and the class `Controller` with the
  `oldDuty`, `ocr0` and `portC` fields. `Controller.Step` is proved to
  compute `NextState`.
- `end_to_end.dfy`: module `EndToEnd`. It feeds the bytes the master sends to
  the slave, for the three scenarios of the system's design: reading 42,
  reading 58, and the gate closing.

The code and the system's design description differ in one place, and the
model follows the code. The design says "Out of range" is shown without
mentioning a clear. The code clears the screen before it, like the other two
messages (master.c:113).

One consequence of the code is worth stating. An open-gate reading of exactly
255 stores 255 in `old_temperature`. If the gate then closes, the closed-gate
branch sees no change: it shows nothing and sends nothing. `StepQuiet`
covers this case.

## Model

| member | source | states |
|---|---|---|
| `Master.DigitChar` | master.c:11 | `d + '0'` is an ASCII digit whose value is `d` |
| `Master.DecimalCanonical` | master.c:10-19 | the rendering `Decimal` of a number has at least one character, all of them digits; it starts with '0' exactly when the number is 0 (no leading zero); it has one digit exactly when the number is below 10 |
| `Master.DecimalRoundTrip` | master.c:10-19 | the written characters are all digits, and reading them back as a base-10 number gives the original number |
| `Master.CanonicalRoundTrip` | master.c:10-19 | every digit string without a leading zero is the rendering of the number it denotes, so the encoder's outputs are exactly the minimal numerals |
| `Master.ByteDecimalLength` | master.c:10-16 | for a `uint8_t` the do-while runs 1 to 3 times: 1 digit below 10, 2 below 100, otherwise 3 |
| `Master.LsdFirst` | master.c:10-14 | the scratch buffer the do-while fills has as many digits as the rendering |
| `Master.LsdFirstReversed` | master.c:18-19 | the scratch buffer holds the rendering in reverse order |
| `Master.IntToStr` | master.c:6-24 | returns the number of digits (1 to 3), writes the minimal decimal rendering to `str[0..length)`, puts a NUL at `str[length]`, and leaves the rest of `str` alone |
| `Master.PutsMeaning` | master.c:29-30 | writing the characters one by one sends nothing and appends exactly that text to the LCD |
| `Master.DisplayMeaning` | master.c:26-31 | `display_on_lcd` sends nothing; with the clear flag the LCD then shows just the text, without it the old contents followed by the text |
| `Master.Controller.constructor` | master.c:104 | the change detector starts at 0 and nothing has been emitted |
| `Master.Controller.SendTemperature` | master.c:46-54 | appends exactly one send of the byte to the log |
| `Master.Controller.DisplayOnLcd` | master.c:26-31 | appends an optional clear and then one write per character of `msg[0..length)`, in order |
| `Master.Controller.Step` | master.c:106-133 | appends exactly the effects of one loop iteration to the log, and `old_temperature` becomes the reading (gate open) or 255 (gate closed) |
| `Master.StepSends` | master.c:107-133 | with the gate open the first effect is the send of the reading, and it is the only send, whether the reading changed or not; with the gate closed 255 is sent once on the transition and nothing otherwise |
| `Master.StepScreen` | master.c:111-132 | after one step the LCD shows "Out of range" for a changed reading above 100, "Temperature: " plus the digits for any other changed reading, "      A < B" on closing, and its old contents otherwise |
| `Master.StepShowsReading` | master.c:114-119 | for a changed reading of at most 100, the digits after the label parse back to the reading that was sent |
| `Master.StepQuiet` | master.c:111-127 | an unchanged reading with the gate open, or a closed gate when `old_temperature` is already 255, emits no display effect and leaves `old_temperature` unchanged |
| `Master.RepeatedStepQuiet` | master.c:106-133 | a step repeated with the same inputs redraws nothing, so two identical steps redraw at most once |
| `Master.FirstZeroNotDisplayed` | master.c:104-111 | since `old_temperature` starts at 0, a first reading of 0 is sent but not displayed |
| `Master.ClosedRunOnce` | master.c:124-133 | however many cycles the gate stays closed, the closed message and the sentinel are emitted only in the first |
| `Master.SteadyRun` | master.c:107-123 | across cycles with the gate open and the same reading, the display changes at most in the first cycle, and every cycle sends the reading |
| `Slave.DutyCycle` | slave.c:4-12 | the duty cycle is always one of 0, 50, 60, 70, 80, 90, 100 |
| `Slave.DutyCycleIsBandTable` | slave.c:4-12 | the if-chain agrees, for every byte, with the ordered table of bands [25,30)→50, [30,35)→60, [35,40)→70, [40,45)→80, [45,50)→90, [50,55]→100, otherwise 0 |
| `Slave.DutyCycleZeroExactlyOutside` | slave.c:5-11 | the duty cycle is 0 if and only if t < 25 or t > 55, so the sentinel 255 gives 0 |
| `Slave.DutyCycleBoundaries` | slave.c:5-10 | 24→0, 25→50, 29→50, 30→60, 49→90, 50→100, 54→100, 55→100, 56→0, 255→0 |
| `Slave.DutyCycleMonotone` | slave.c:5-10 | on [0,55] a higher temperature never gets a lower duty cycle |
| `Slave.OcrValues` | slave.c:55 | the OCR0 values of the seven duties are 0, 127, 153, 178, 204, 229, 255 |
| `Slave.NextPortC` | slave.c:59-63 | the LED bit is set afterwards if and only if 55 < t <= 100 and it was clear before; the heater bit is set if and only if t < 20; the other six bits are preserved |
| `Slave.PortCOperations` | slave.c:59-63 | the source's toggle, clear and set operations on PORTC compute `NextPortC` |
| `Slave.BlinkTwiceRestoresLed` | slave.c:59 | in the blink range each cycle flips the LED, so two cycles restore it |
| `Slave.OcrWrittenOnlyOnChange` | slave.c:54-57 | afterwards `old_duty_cycle` holds the new duty; OCR0 is untouched when the duty is unchanged; OCR0 keeps matching the last duty written, and then it changes exactly when the duty changes |
| `Slave.RepeatedByteKeepsOcr` | slave.c:54-57 | a repeated byte leaves OCR0 and `old_duty_cycle` as the first one left them |
| `Slave.RunTracksLastByte` | slave.c:48-64 | after any non-empty sequence of bytes, starting from a consistent state such as power-on, OCR0 holds the value for the last byte's duty and the heater bit follows the last byte |
| `Slave.Controller.constructor` | slave.c:46 | `old_duty_cycle`, OCR0 and PORTC start at 0, a state in which OCR0 matches the duty |
| `Slave.Controller.Step` | slave.c:51-63 | the fields after one iteration are `NextState` of the fields before |
| `Slave.Controller.UpdateCooler` | slave.c:52-57 | `old_duty_cycle` becomes the new duty; OCR0 gets that duty's value if the duty changed and is untouched otherwise |
| `Slave.Controller.UpdateLedAndHeater` | slave.c:59-63 | PORTC becomes `NextPortC` of its old value |
| `EndToEnd.ActiveReadingCools` | slave.c:51-63 | gate open with reading 42: 42 is sent, the duty becomes 80, OCR0 becomes 204, and the LED and heater are off |
| `EndToEnd.ActiveHotReadingBlinks` | slave.c:51-63 | gate open with reading 58: the duty and OCR0 become 0, the LED flips, and the heater is off |
| `EndToEnd.GateClosing` | master.c:124-132 | on closing, the LCD shows "      A < B" and 255 is sent, which turns the cooler, LED and heater off; a further closed cycle emits nothing |

## Left out

- Peripheral register setup (SPI, ADC, comparator, timer and port direction registers, `init_LCD`): configuration with no decision logic.
- `get_temperature` (master.c:33-44): the ADC conversion is floating point on a hardware sample, and its cast to `uint8_t` wraps. The reading is a parameter of `Master.Controller.Step`.
- The comparator read `ACSR >> ACO` (master.c:107) is a parameter, the gate.
- The busy-waits on ADIF and SPIF (master.c:36, master.c:51, slave.c:49): a send is taken as completed. The slave's received byte is a parameter of `Slave.Controller.Step`.
- The LCD driver (`LCD_cmd`, `LCD_write`) and `_delay_ms` are foreign calls. They become `ClearScreen` and `WriteChar` events and nothing, respectively.
- `Slave.OcrValue`: the source computes OCR0 in floating point, as `(duty / 100.0) * 255.0` truncated. The model uses the integer `duty * 255 / 100`. The two agree on the seven possible duties.
- The infinite `while (1)` loops: each node is modelled one iteration at a time, plus finite runs (`Master.RunEffects`, `Slave.Run`).
- SPI timing between the nodes, where a frame the slave has not collected is overwritten. `EndToEnd` delivers every sent byte, in order.
- The `new_temperature < 0` half of the range test (master.c:112) can never hold for a `uint8_t`. It is not written out.
