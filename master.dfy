/**
 * The sensing node (master.c): the decimal encoder `int_to_str`, the LCD and
 * SPI output routines, and one iteration of the main loop as a controller
 * step over the change detector `old_temperature`.
 */
module Master {
  import opened Avr

  // ---------------------------------------------------------------------
  // Decimal encoding (int_to_str)
  // ---------------------------------------------------------------------

  /** The ASCII digit for d, the C expression `d + '0'`. */
  function DigitChar(d: nat): (c: char)
    requires d < 10
    ensures IsDigit(c) && DigitValue(c) == d
  {
    (d + '0' as int) as char
  }

  predicate IsDigit(c: char) {
    '0' <= c <= '9'
  }

  function DigitValue(c: char): int {
    c as int - '0' as int
  }

  predicate AllDigits(s: string) {
    forall i :: 0 <= i < |s| ==> IsDigit(s[i])
  }

  /** A minimal decimal numeral: at least one digit and no leading zero. */
  predicate Canonical(s: string) {
    1 <= |s| && AllDigits(s) && (s[0] == '0' ==> |s| == 1)
  }

  /** The minimal decimal rendering of n, most significant digit first. */
  function Decimal(n: nat): string {
    if n < 10 then [DigitChar(n)] else Decimal(n / 10) + [DigitChar(n % 10)]
  }

  /**
   * The rendering is a minimal numeral: it starts with '0' only for 0, and
   * it has a single digit exactly for the numbers below 10.
   */
  lemma {:induction false} DecimalCanonical(n: nat)
    ensures Canonical(Decimal(n))
    ensures Decimal(n)[0] == '0' <==> n == 0
    ensures |Decimal(n)| == 1 <==> n < 10
  {
    if n >= 10 {
      DecimalCanonical(n / 10);
      assert Decimal(n)[0] == Decimal(n / 10)[0];
    }
  }

  /** Reads a string of decimal digits back as a number, as a display reader would. */
  function ValueOf(s: string): nat
    requires AllDigits(s)
  {
    if s == [] then 0 else ValueOf(s[..|s| - 1]) * 10 + DigitValue(s[|s| - 1])
  }

  /** Reading the rendering back yields the number. */
  lemma {:induction false} DecimalRoundTrip(n: nat)
    ensures AllDigits(Decimal(n)) && ValueOf(Decimal(n)) == n
  {
    DecimalCanonical(n);
    if n >= 10 {
      var s := Decimal(n);
      assert s[..|s| - 1] == Decimal(n / 10);
      DecimalRoundTrip(n / 10);
    }
  }

  /** Every minimal numeral is the rendering of the number it denotes. */
  lemma {:induction false} CanonicalRoundTrip(s: string)
    requires Canonical(s)
    ensures Decimal(ValueOf(s)) == s
  {
    if |s| == 1 {
      assert s == [DigitChar(DigitValue(s[0]))];
    } else {
      var p := s[..|s| - 1];
      var d := DigitValue(s[|s| - 1]);
      assert p[0] == s[0];
      CanonicalRoundTrip(p);
      var v := ValueOf(p);
      DecimalCanonical(v);
      assert v != 0;
      assert ValueOf(s) == v * 10 + d;
      assert (v * 10 + d) / 10 == v && (v * 10 + d) % 10 == d;
      assert DigitChar(d) == s[|s| - 1];
    }
  }

  /** A byte renders as one to three digits. */
  lemma ByteDecimalLength(n: Byte)
    ensures 1 <= |Decimal(n)| <= 3
    ensures |Decimal(n)| == if n < 10 then 1 else if n < 100 then 2 else 3
  {
  }

  /** The digits least significant first, as the do-while leaves them in `temp`. */
  function LsdFirst(n: nat): (s: string)
    ensures |s| == |Decimal(n)|
  {
    if n < 10 then [DigitChar(n)] else [DigitChar(n % 10)] + LsdFirst(n / 10)
  }

  /** The scratch buffer holds the rendering reversed. */
  lemma {:induction false} LsdFirstReversed(n: nat, k: nat)
    requires k < |Decimal(n)|
    ensures LsdFirst(n)[k] == Decimal(n)[|Decimal(n)| - 1 - k]
  {
    if n >= 10 && k > 0 {
      LsdFirstReversed(n / 10, k - 1);
    }
  }

  /**
   * `int_to_str`: writes the minimal decimal rendering of num into str,
   * followed by a NUL, and returns the number of digits. The caller must
   * supply room for the digits and the terminator.
   */
  method IntToStr(num: Byte, str: array<char>) returns (length: int)
    requires |Decimal(num)| < str.Length
    modifies str
    ensures length == |Decimal(num)| && 1 <= length <= 3
    ensures str[..length] == Decimal(num)
    ensures str[length] == '\0'
    ensures forall k :: length < k < str.Length ==> str[k] == old(str[k])
  {
    ByteDecimalLength(num);
    ghost var digits := LsdFirst(num);
    var temp := new char[4];
    var i, n := 0, num as nat;
    // do { ... } while (num): the body runs at least once
    while i == 0 || n != 0
      invariant 0 <= i <= |digits|
      invariant forall k :: 0 <= k < i ==> temp[k] == digits[k]
      invariant i == 0 ==> n == num
      invariant i == 0 || n != 0 ==> i < |digits| && LsdFirst(n) == digits[i..]
      invariant i > 0 && n == 0 ==> i == |digits|
      modifies temp
      decreases n, if i == 0 then 1 else 0
    {
      assert n >= 10 ==> LsdFirst(n / 10) == LsdFirst(n)[1..];
      temp[i] := DigitChar(n % 10);
      n := n / 10;
      i := i + 1;
    }
    length := i;
    ghost var decimal := Decimal(num);
    var j := 0;
    while i > 0
      invariant 0 <= i <= length && j == length - i
      invariant forall k :: 0 <= k < j ==> str[k] == decimal[k]
      invariant forall k :: j <= k < str.Length ==> str[k] == old(str[k])
      modifies str
    {
      i := i - 1;
      LsdFirstReversed(num, i);
      assert temp[i] == decimal[j];
      str[j] := temp[i];
      j := j + 1;
    }
    str[j] := '\0';
    assert str[..length] == decimal;
  }

  // ---------------------------------------------------------------------
  // Effects of one loop iteration
  // ---------------------------------------------------------------------

  /** What the sensing node does to the outside world. */
  datatype Effect =
    | Send(value: Byte)      // one SPI frame to the slave
    | ClearScreen            // LCD_cmd(0x01)
    | WriteChar(c: char)     // LCD_write(c)

  /** The sentinel sent while the gate is closed: outside the 0..100 range. */
  const Sentinel: Byte := 255
  /** The largest reading shown as a temperature. */
  const MaxReading: Byte := 100

  const OutOfRangeText := "Out of range"
  const GateClosedText := "      A < B"
  const TemperatureLabel := "Temperature: "

  /** The character writes of text, in order. */
  function Puts(text: string): seq<Effect> {
    seq(|text|, i requires 0 <= i < |text| => WriteChar(text[i]))
  }

  /** `display_on_lcd`: an optional clear, then the text. */
  function Display(text: string, clearScreen: bool): seq<Effect> {
    (if clearScreen then [ClearScreen] else []) + Puts(text)
  }

  /** The effects of one iteration of the main loop, from the stored `old_temperature`. */
  function StepEffects(oldTemperature: Byte, gate: bool, reading: Byte): seq<Effect> {
    if gate then
      [Send(reading)] +
      (if reading == oldTemperature then []
       else if reading > MaxReading then Display(OutOfRangeText, true)
       else Display(TemperatureLabel, true) + Display(Decimal(reading), false))
    else if oldTemperature == Sentinel then []
    else Display(GateClosedText, true) + [Send(Sentinel)]
  }

  /** `old_temperature` after one iteration: the last value seen, the sentinel when closed. */
  function NextTemperature(oldTemperature: Byte, gate: bool, reading: Byte): Byte {
    if gate then reading else Sentinel
  }

  // ---------------------------------------------------------------------
  // The observers: bytes on the wire and text on the LCD
  // ---------------------------------------------------------------------

  /** The bytes sent to the slave, in order. */
  function Sent(effs: seq<Effect>): seq<Byte> {
    if effs == [] then []
    else (if effs[0].Send? then [effs[0].value] else []) + Sent(effs[1..])
  }

  /** The LCD contents after the effects, starting from `before`: a clear erases, a write appends. */
  function Screen(before: string, effs: seq<Effect>): string
    decreases |effs|
  {
    if effs == [] then before
    else
      var after := match effs[0]
        case ClearScreen => ""
        case WriteChar(c) => before + [c]
        case Send(_) => before;
      Screen(after, effs[1..])
  }

  lemma {:induction false} SentAppend(a: seq<Effect>, b: seq<Effect>)
    ensures Sent(a + b) == Sent(a) + Sent(b)
  {
    if a != [] {
      assert (a + b)[0] == a[0] && (a + b)[1..] == a[1..] + b;
      SentAppend(a[1..], b);
    } else {
      assert a + b == b;
    }
  }

  lemma {:induction false} ScreenAppend(before: string, a: seq<Effect>, b: seq<Effect>)
    ensures Screen(before, a + b) == Screen(Screen(before, a), b)
    decreases |a|
  {
    if a != [] {
      assert (a + b)[0] == a[0] && (a + b)[1..] == a[1..] + b;
      var after := match a[0]
        case ClearScreen => ""
        case WriteChar(c) => before + [c]
        case Send(_) => before;
      ScreenAppend(after, a[1..], b);
    } else {
      assert a + b == b;
    }
  }

  /** Writing text sends nothing and appends the text to the screen. */
  lemma {:induction false} PutsMeaning(before: string, text: string)
    ensures Sent(Puts(text)) == []
    ensures Screen(before, Puts(text)) == before + text
    decreases |text|
  {
    if text != [] {
      assert Puts(text)[1..] == Puts(text[1..]);
      PutsMeaning(before + [text[0]], text[1..]);
      assert before + [text[0]] + text[1..] == before + text;
    }
  }

  /** A display call sends nothing and leaves the text, or the old text plus it, on the screen. */
  lemma DisplayMeaning(before: string, text: string, clearScreen: bool)
    ensures Sent(Display(text, clearScreen)) == []
    ensures Screen(before, Display(text, clearScreen)) == (if clearScreen then "" else before) + text
  {
    PutsMeaning(before, text);
    PutsMeaning("", text);
    if clearScreen {
      SentAppend([ClearScreen], Puts(text));
      ScreenAppend(before, [ClearScreen], Puts(text));
    } else {
      assert Display(text, clearScreen) == Puts(text);
    }
  }

  // ---------------------------------------------------------------------
  // Properties of one step
  // ---------------------------------------------------------------------

  /**
   * With the gate open the reading is sent exactly once, before any display
   * effect, whether or not it changed; with the gate closed the sentinel is
   * sent only on the transition into the closed state.
   */
  lemma StepSends(oldTemperature: Byte, gate: bool, reading: Byte)
    ensures gate ==> StepEffects(oldTemperature, gate, reading)[0] == Send(reading)
    ensures Sent(StepEffects(oldTemperature, gate, reading)) ==
      if gate then [reading]
      else if oldTemperature != Sentinel then [Sentinel]
      else []
  {
    var effs := StepEffects(oldTemperature, gate, reading);
    if gate {
      var rest := effs[1..];
      assert effs == [Send(reading)] + rest;
      SentAppend([Send(reading)], rest);
      if reading != oldTemperature && reading <= MaxReading {
        DisplayMeaning("", TemperatureLabel, true);
        DisplayMeaning("", Decimal(reading), false);
        SentAppend(Display(TemperatureLabel, true), Display(Decimal(reading), false));
      } else if reading != oldTemperature {
        DisplayMeaning("", OutOfRangeText, true);
      }
    } else if oldTemperature != Sentinel {
      DisplayMeaning("", GateClosedText, true);
      SentAppend(Display(GateClosedText, true), [Send(Sentinel)]);
    }
  }

  /**
   * What the LCD shows after one step, whatever it showed before: "Out of
   * range" for a changed reading above 100, "Temperature: " and the digits
   * for any other changed reading, the gate-closed message on the
   * transition into the closed state, and otherwise the old contents.
   */
  lemma StepScreen(before: string, oldTemperature: Byte, gate: bool, reading: Byte)
    ensures Screen(before, StepEffects(oldTemperature, gate, reading)) ==
      if gate && reading != oldTemperature then
        (if reading > MaxReading then OutOfRangeText else TemperatureLabel + Decimal(reading))
      else if !gate && oldTemperature != Sentinel then GateClosedText
      else before
  {
    var effs := StepEffects(oldTemperature, gate, reading);
    if gate {
      var rest := effs[1..];
      assert effs == [Send(reading)] + rest;
      ScreenAppend(before, [Send(reading)], rest);
      assert Screen(before, [Send(reading)]) == before;
      if reading != oldTemperature && reading <= MaxReading {
        assert rest == Display(TemperatureLabel, true) + Display(Decimal(reading), false);
        DisplayMeaning(before, TemperatureLabel, true);
        DisplayMeaning(TemperatureLabel, Decimal(reading), false);
        ScreenAppend(before, Display(TemperatureLabel, true), Display(Decimal(reading), false));
        assert Screen(before, Display(TemperatureLabel, true)) == TemperatureLabel;
        assert Screen(before, rest) == TemperatureLabel + Decimal(reading);
      } else if reading != oldTemperature {
        DisplayMeaning(before, OutOfRangeText, true);
      }
    } else if oldTemperature != Sentinel {
      DisplayMeaning(before, GateClosedText, true);
      ScreenAppend(before, Display(GateClosedText, true), [Send(Sentinel)]);
    }
  }

  /** The digits shown after the label read back as the reading that was sent. */
  lemma StepShowsReading(before: string, oldTemperature: Byte, reading: Byte)
    requires reading != oldTemperature && reading <= MaxReading
    ensures var shown := Screen(before, StepEffects(oldTemperature, true, reading));
      |TemperatureLabel| < |shown| && AllDigits(shown[|TemperatureLabel|..]) &&
      ValueOf(shown[|TemperatureLabel|..]) == reading &&
      Sent(StepEffects(oldTemperature, true, reading)) == [reading]
  {
    StepScreen(before, oldTemperature, true, reading);
    StepSends(oldTemperature, true, reading);
    var shown := Screen(before, StepEffects(oldTemperature, true, reading));
    assert shown[|TemperatureLabel|..] == Decimal(reading);
    DecimalRoundTrip(reading);
  }

  /**
   * An unchanged reading (gate open) or an already-closed gate touches
   * neither the display nor `old_temperature`.
   */
  lemma StepQuiet(oldTemperature: Byte, gate: bool, reading: Byte)
    requires if gate then reading == oldTemperature else oldTemperature == Sentinel
    ensures StepEffects(oldTemperature, gate, reading) == if gate then [Send(reading)] else []
    ensures NextTemperature(oldTemperature, gate, reading) == oldTemperature
  {
  }

  /** Repeating a step redraws nothing: two identical steps redraw at most once. */
  lemma RepeatedStepQuiet(oldTemperature: Byte, gate: bool, reading: Byte)
    ensures var next := NextTemperature(oldTemperature, gate, reading);
      StepEffects(next, gate, reading) == (if gate then [Send(reading)] else []) &&
      NextTemperature(next, gate, reading) == next
  {
  }

  /** Power-on quirk: `old_temperature` starts at 0, so a first reading of 0 is not displayed. */
  lemma FirstZeroNotDisplayed()
    ensures StepEffects(0, true, 0) == [Send(0)]
  {
  }

  // ---------------------------------------------------------------------
  // Finite runs of the loop
  // ---------------------------------------------------------------------

  /** The inputs of one iteration: the comparator gate and the reading it would take. */
  datatype Cycle = Cycle(gate: bool, reading: Byte)

  function RunEffects(oldTemperature: Byte, cycles: seq<Cycle>): seq<Effect>
    decreases |cycles|
  {
    if cycles == [] then []
    else
      StepEffects(oldTemperature, cycles[0].gate, cycles[0].reading) +
      RunEffects(NextTemperature(oldTemperature, cycles[0].gate, cycles[0].reading), cycles[1..])
  }

  /** However long the gate stays closed, the closed message and the sentinel go out once. */
  lemma {:induction false} ClosedRunOnce(oldTemperature: Byte, cycles: seq<Cycle>)
    requires forall i :: 0 <= i < |cycles| ==> !cycles[i].gate
    ensures RunEffects(oldTemperature, cycles) ==
      if cycles == [] then [] else StepEffects(oldTemperature, false, 0)
    decreases |cycles|
  {
    if cycles != [] {
      ClosedRunOnce(Sentinel, cycles[1..]);
    }
  }

  /** A steady reading is displayed at most once but sent on every cycle. */
  lemma {:induction false} SteadyRun(oldTemperature: Byte, reading: Byte, cycles: seq<Cycle>)
    requires forall i :: 0 <= i < |cycles| ==> cycles[i] == Cycle(true, reading)
    ensures RunEffects(oldTemperature, cycles) ==
      if cycles == [] then []
      else StepEffects(oldTemperature, true, reading) + seq(|cycles| - 1, _ => Send(reading))
    decreases |cycles|
  {
    if |cycles| > 1 {
      SteadyRun(reading, reading, cycles[1..]);
      assert StepEffects(reading, true, reading) == [Send(reading)];
      assert RunEffects(reading, cycles[1..]) ==
        [Send(reading)] + seq(|cycles| - 2, _ => Send(reading));
      assert [Send(reading)] + seq(|cycles| - 2, _ => Send(reading)) ==
        seq(|cycles| - 1, _ => Send(reading));
    }
  }

  // ---------------------------------------------------------------------
  // The node itself
  // ---------------------------------------------------------------------

  /** The sensing node: the change detector and the log of everything it has done. */
  class Controller {
    var oldTemperature: Byte
    var log: seq<Effect>

    constructor ()
      ensures oldTemperature == 0 && log == []
    {
      oldTemperature := 0;
      log := [];
    }

    /** `send_temperature`: one SPI frame; the busy-wait is taken as completed. */
    method SendTemperature(temperature: Byte)
      modifies this`log
      ensures log == old(log) + [Send(temperature)]
    {
      log := log + [Send(temperature)];
    }

    /** `display_on_lcd`: an optional clear, then the first `length` characters one by one. */
    method DisplayOnLcd(msg: string, length: int, clearScreen: bool)
      requires 0 <= length <= |msg|
      modifies this`log
      ensures log == old(log) + Display(msg[..length], clearScreen)
    {
      if clearScreen {
        log := log + [ClearScreen];
      }
      for i := 0 to length
        invariant log == old(log) + Display(msg[..i], clearScreen)
      {
        assert Puts(msg[..i + 1]) == Puts(msg[..i]) + [WriteChar(msg[i])];
        log := log + [WriteChar(msg[i])];
      }
    }

    /** One iteration of the main loop, given the gate and the reading the ADC would give. */
    method Step(gate: bool, reading: Byte)
      modifies this
      ensures log == old(log) + StepEffects(old(oldTemperature), gate, reading)
      ensures oldTemperature == NextTemperature(old(oldTemperature), gate, reading)
    {
      ghost var log0, old0 := log, oldTemperature;
      var newTemperature: Byte;
      if gate {
        newTemperature := reading;
        SendTemperature(newTemperature);
        if newTemperature != oldTemperature {
          // the `< 0` half of the range test never holds for a uint8_t
          if newTemperature > MaxReading {
            DisplayOnLcd(OutOfRangeText, 12, true);
            assert OutOfRangeText[..12] == OutOfRangeText;
            assert log == log0 + ([Send(reading)] + Display(OutOfRangeText, true));
          } else {
            var str := new char[4];
            var length := IntToStr(newTemperature, str);
            DisplayOnLcd(TemperatureLabel, 13, true);
            assert TemperatureLabel[..13] == TemperatureLabel;
            DisplayOnLcd(str[..], length, false);
            assert str[..][..length] == Decimal(reading);
            assert log == log0 + ([Send(reading)] +
              (Display(TemperatureLabel, true) + Display(Decimal(reading), false)));
          }
          oldTemperature := newTemperature;
        } else {
          assert log == log0 + [Send(reading)] + [];
        }
      } else {
        newTemperature := Sentinel;
        if newTemperature != oldTemperature {
          DisplayOnLcd(GateClosedText, 11, true);
          assert GateClosedText[..11] == GateClosedText;
          SendTemperature(newTemperature);
          oldTemperature := newTemperature;
        }
      }
    }
  }
}
