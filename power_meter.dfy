/** The render loop of src/main.rs: the calibration presets, the display
    mode, the readout formatting and the per-event state transition of the
    main loop, with the redraw-only-if-changed decision. */
module PowerMeter {
  import opened Common

  /** The INA219 range presets, in the order `get_calibration` numbers them. */
  datatype Calibration = Calibration32V2A | Calibration32V1A | Calibration16V400mA

  /** `cardinality::<Calibration>()`. */
  const CALIBRATION_COUNT: nat := 3
  /** `heapless::String<128>`: the capacity of an event's message. */
  const MESSAGE_CAPACITY: nat := 128

  /** `get_calibration`: indices 0, 1, 2 name the three presets; any other
      index falls back to 32V 2A. */
  function GetCalibration(index: nat): (c: Calibration)
    ensures index >= CALIBRATION_COUNT ==> c == Calibration32V2A
  {
    match index
    case 0 => Calibration32V2A
    case 1 => Calibration32V1A
    case 2 => Calibration16V400mA
    case _ => Calibration32V2A
  }

  /** The three indices name three different presets, so every preset is
      reached by cycling. */
  lemma GetCalibrationCoversPresets(c: Calibration)
    ensures exists i: nat :: i < CALIBRATION_COUNT && GetCalibration(i) == c
    ensures GetCalibration(0) != GetCalibration(1) && GetCalibration(1) != GetCalibration(2) &&
            GetCalibration(0) != GetCalibration(2)
  {
    match c
    case Calibration32V2A => assert GetCalibration(0) == c;
    case Calibration32V1A => assert GetCalibration(1) == c;
    case Calibration16V400mA => assert GetCalibration(2) == c;
  }

  /** `get_calibration_text`: a non-empty label that fits the message buffer;
      different presets have different labels. */
  function CalibrationText(c: Calibration): (s: string)
    ensures 0 < |s| <= MESSAGE_CAPACITY
  {
    match c
    case Calibration32V2A => "32V - 2A"
    case Calibration32V1A => "32V - 1A"
    case Calibration16V400mA => "16V - 400mA"
  }

  /** Different presets have different labels. */
  lemma CalibrationTextDistinct(c: Calibration, d: Calibration)
    requires c != d
    ensures CalibrationText(c) != CalibrationText(d)
  {
    assert CalibrationText(c)[..3] != CalibrationText(d)[..3] || CalibrationText(c)[6] != CalibrationText(d)[6];
  }

  /** `PowerDisplay`: what the readout shows, in declaration order. */
  datatype PowerDisplay = Voltage | Current | Power

  const LAST_MODE: nat := 2

  function Ordinal(d: PowerDisplay): nat {
    match d
    case Voltage => 0
    case Current => 1
    case Power => 2
  }

  /** `Sequence::previous`: the mode declared before, none for the first. */
  function Previous(d: PowerDisplay): (r: Option<PowerDisplay>)
    ensures r.Some? <==> Ordinal(d) > 0
    ensures r.Some? ==> Ordinal(r.value) + 1 == Ordinal(d)
  {
    match d
    case Voltage => None
    case Current => Some(Voltage)
    case Power => Some(Current)
  }

  /** `Sequence::next`: the mode declared after, none for the last. */
  function Next(d: PowerDisplay): (r: Option<PowerDisplay>)
    ensures r.Some? <==> Ordinal(d) < LAST_MODE
    ensures r.Some? ==> Ordinal(r.value) == Ordinal(d) + 1
  {
    match d
    case Voltage => Some(Current)
    case Current => Some(Power)
    case Power => None
  }

  /** Button 1: `previous().unwrap_or(Voltage)`, one step back, holding at
      the first mode. */
  function ModeBack(d: PowerDisplay): (r: PowerDisplay)
    ensures Ordinal(r) == if Ordinal(d) == 0 then 0 else Ordinal(d) - 1
  {
    match Previous(d)
    case Some(p) => p
    case None => Voltage
  }

  /** Button 2: `next().unwrap_or(Power)`, one step forward, holding at the
      last mode. */
  function ModeForward(d: PowerDisplay): (r: PowerDisplay)
    ensures Ordinal(r) == Min(Ordinal(d) + 1, LAST_MODE)
  {
    match Next(d)
    case Some(n) => n
    case None => Power
  }

  /** A mode is determined by its ordinal. */
  lemma OrdinalInjective(d: PowerDisplay, e: PowerDisplay)
    requires Ordinal(d) == Ordinal(e)
    ensures d == e
  {
  }

  /** `PowerMonitor`: one INA219 sample (the `f32` fields as reals). */
  datatype PowerMonitor = PowerMonitor(shunt: real, voltage: real, current: real, power: real)

  /** `InputData`: a button number (-1 when none), a sample and an optional
      message. */
  datatype InputData = InputData(button: int, power: PowerMonitor, msg: Option<string>)

  /** `InputData::new`: no button, an all-zero sample, no message. */
  function NewInputData(): (e: InputData)
    ensures e.button < 0 && e.msg.None?
    ensures e.power.shunt == e.power.voltage == e.power.current == e.power.power == 0.0
  {
    InputData(-1, PowerMonitor(0.0, 0.0, 0.0, 0.0), None)
  }

  /** The two format specifications the readout uses: `{:>2.3}` and `{:>5}`. */
  datatype FormatSpec = RightAligned2Precision3 | RightAligned5

  /** The `core::fmt` rendering of a number, which the model does not see. */
  type Formatter = (FormatSpec, real) -> string

  function SpecOf(mode: PowerDisplay): FormatSpec {
    if mode == Voltage then RightAligned2Precision3 else RightAligned5
  }

  /** The sample field a mode shows. */
  function FieldOf(mode: PowerDisplay, p: PowerMonitor): real {
    match mode
    case Voltage => p.voltage
    case Current => p.current
    case Power => p.power
  }

  /** The unit text of a mode: two characters, which fit `String<2>`; only
      volts are padded with a space. */
  function UnitOf(mode: PowerDisplay): (u: string)
    ensures |u| == 2
    ensures u[1] == ' ' <==> mode == Voltage
  {
    match mode
    case Voltage => "V "
    case Current => "mA"
    case Power => "mW"
  }

  /** Different modes have different units. */
  lemma UnitsDistinct(mode: PowerDisplay, other: PowerDisplay)
    requires mode != other
    ensures UnitOf(mode) != UnitOf(other)
  {
    assert UnitOf(mode)[1] != UnitOf(other)[1];
  }

  /** The readout text and unit of a sample in a mode; with zero current the
      number shown is 0 whatever the sample's fields hold. */
  datatype Readout = Readout(value: string, unit: string)

  function ReadoutOf(mode: PowerDisplay, p: PowerMonitor, fmt: Formatter): (r: Readout)
    ensures r.unit == UnitOf(mode)
    ensures p.current == 0.0 ==> r.value == fmt(SpecOf(mode), 0.0)
    ensures p.current != 0.0 ==> r.value == fmt(SpecOf(mode), FieldOf(mode, p))
  {
    var shown := if p.current != 0.0 then FieldOf(mode, p) else 0.0;
    Readout(fmt(SpecOf(mode), shown), UnitOf(mode))
  }

  /** With zero current the readout does not depend on the other fields. */
  lemma ZeroCurrentReadout(mode: PowerDisplay, p: PowerMonitor, q: PowerMonitor, fmt: Formatter)
    requires p.current == 0.0 && q.current == 0.0
    ensures ReadoutOf(mode, p, fmt) == ReadoutOf(mode, q, fmt)
  {
  }

  /** What the loop body does to the screen. */
  datatype DrawAction =
    | ShowMessage(text: string)            // clear the screen, draw the message
    | DrawReadout(value: string, unit: string)
    | KeepScreen                           // the readout did not change

  /** The loop's locals that survive an iteration. */
  datatype LoopState = LoopState(calIndex: nat, mode: PowerDisplay, lastBuf: string)

  const INITIAL_STATE: LoopState := LoopState(0, Voltage, "")

  datatype StepResult = StepResult(state: LoopState, signal: Option<Calibration>, action: DrawAction)

  /** One iteration of the main loop for a received event. Only button 0
      signals a calibration, and the index stays one of the three presets. */
  function Step(s: LoopState, e: InputData, fmt: Formatter): (r: StepResult)
    ensures s.calIndex < CALIBRATION_COUNT ==> r.state.calIndex < CALIBRATION_COUNT
    ensures r.signal.Some? <==> e.button == 0
    ensures r.signal.Some? ==> r.signal.value == GetCalibration(r.state.calIndex)
  {
    var calIndex := if e.button == 0 then (s.calIndex + 1) % CALIBRATION_COUNT else s.calIndex;
    var mode :=
      if e.button == 1 then ModeBack(s.mode)
      else if e.button == 2 then ModeForward(s.mode)
      else s.mode;
    var signal := if e.button == 0 then Some(GetCalibration(calIndex)) else None;
    var msg := if e.button == 0 then Some(CalibrationText(GetCalibration(calIndex))) else e.msg;
    var lastBuf := if e.button == 0 then "" else s.lastBuf;
    var readout := ReadoutOf(mode, e.power, fmt);
    if msg.Some? then
      StepResult(LoopState(calIndex, mode, lastBuf), signal, ShowMessage(msg.value))
    else
      StepResult(LoopState(calIndex, mode, readout.value), signal,
                 if readout.value != lastBuf then DrawReadout(readout.value, readout.unit) else KeepScreen)
  }

  /** Button 0 advances the calibration index modulo 3, signals that preset,
      shows its label and clears the last drawn readout; the mode is kept. */
  lemma CalibrationButton(s: LoopState, e: InputData, fmt: Formatter)
    requires e.button == 0
    ensures var r := Step(s, e, fmt);
      r.state.calIndex == (s.calIndex + 1) % CALIBRATION_COUNT &&
      r.signal == Some(GetCalibration(r.state.calIndex)) &&
      r.action == ShowMessage(CalibrationText(GetCalibration(r.state.calIndex))) &&
      r.state.lastBuf == "" && r.state.mode == s.mode
  {
  }

  /** Buttons 1 and 2 move the mode one step back or forward, holding at the
      ends; no other event changes it. */
  lemma ModeButtons(s: LoopState, e: InputData, fmt: Formatter)
    ensures var m := Step(s, e, fmt).state.mode;
      Ordinal(m) ==
        if e.button == 1 then (if Ordinal(s.mode) == 0 then 0 else Ordinal(s.mode) - 1)
        else if e.button == 2 then Min(Ordinal(s.mode) + 1, LAST_MODE)
        else Ordinal(s.mode)
    ensures e.button == 1 && s.mode == Voltage ==> Step(s, e, fmt).state.mode == Voltage
    ensures e.button == 2 && s.mode == Power ==> Step(s, e, fmt).state.mode == Power
  {
  }

  /** An event that is not a press of button 0, 1 or 2 (the default event of
      `InputData::new` among them) keeps the index and the mode. */
  lemma OtherEventsKeepSettings(s: LoopState, e: InputData, fmt: Formatter)
    requires e.button !in {0, 1, 2}
    ensures Step(s, e, fmt).state.calIndex == s.calIndex
    ensures Step(s, e, fmt).state.mode == s.mode
    ensures Step(s, e, fmt).signal == None
    ensures Step(s, NewInputData(), fmt).state.calIndex == s.calIndex
    ensures Step(s, NewInputData(), fmt).state.mode == s.mode
  {
  }

  /** An event that carries a message shows it and keeps the last readout;
      any other event other than button 0 draws the readout only when it
      differs from the last one drawn, and remembers it. */
  lemma RedrawOnlyIfChanged(s: LoopState, e: InputData, fmt: Formatter)
    requires e.button != 0
    ensures var r := Step(s, e, fmt);
      var readout := ReadoutOf(r.state.mode, e.power, fmt);
      (e.msg.Some? ==> r.action == ShowMessage(e.msg.value) && r.state.lastBuf == s.lastBuf) &&
      (e.msg.None? ==>
        r.state.lastBuf == readout.value &&
        (r.action.DrawReadout? <==> readout.value != s.lastBuf) &&
        (r.action.DrawReadout? ==> r.action == DrawReadout(readout.value, readout.unit)) &&
        (!r.action.DrawReadout? ==> r.action == KeepScreen))
  {
  }

  /** The same sample twice in a row is drawn at most once. */
  lemma SameSampleDrawnOnce(s: LoopState, e: InputData, fmt: Formatter)
    requires e.button !in {0, 1, 2} && e.msg.None?
    ensures Step(Step(s, e, fmt).state, e, fmt).action == KeepScreen
  {
  }

  /** Three presses of button 0 bring the calibration index back. */
  lemma ThreeCalibrationPresses(s: LoopState, e: InputData, fmt: Formatter)
    requires e.button == 0 && s.calIndex < CALIBRATION_COUNT
    ensures Step(Step(Step(s, e, fmt).state, e, fmt).state, e, fmt).state.calIndex == s.calIndex
  {
  }

  /** After a calibration press the next readout is always drawn, since the
      last buffer was cleared and a formatted number is never empty. */
  lemma ReadoutRedrawnAfterCalibration(s: LoopState, press: InputData, e: InputData, fmt: Formatter)
    requires press.button == 0 && e.button != 0 && e.msg.None?
    requires forall spec: FormatSpec, x: real :: fmt(spec, x) != ""
    ensures Step(Step(s, press, fmt).state, e, fmt).action.DrawReadout?
  {
  }

  /** The number of presses of button 0 among the events. */
  function Presses(events: seq<InputData>): (n: nat)
    decreases |events|
    ensures n <= |events|
  {
    if events == [] then 0
    else Presses(events[..|events| - 1]) + (if events[|events| - 1].button == 0 then 1 else 0)
  }

  /** What the loop has done after a sequence of received events. */
  datatype Trace = Trace(state: LoopState, signals: seq<Calibration>, actions: seq<DrawAction>)

  /** The loop run over `events` from its initial state: one action per
      event; the signals are the presets in cycling order 1, 2, 0, 1, ...,
      one per press of button 0, and the index is the number of presses
      modulo 3. */
  function Run(events: seq<InputData>, fmt: Formatter): (t: Trace)
    decreases |events|
    ensures |t.actions| == |events|
    ensures |t.signals| == Presses(events)
    ensures t.state.calIndex == Presses(events) % CALIBRATION_COUNT
    ensures forall j :: 0 <= j < |t.signals| ==> t.signals[j] == GetCalibration((j + 1) % CALIBRATION_COUNT)
  {
    if events == [] then Trace(INITIAL_STATE, [], [])
    else Extend(Run(events[..|events| - 1], fmt), events[|events| - 1], fmt)
  }

  /** The trace after one more event: its step's state, its signal if any,
      and its action. */
  function Extend(t: Trace, e: InputData, fmt: Formatter): Trace {
    var r := Step(t.state, e, fmt);
    Trace(r.state, t.signals + (if r.signal.Some? then [r.signal.value] else []), t.actions + [r.action])
  }

  /** Running one more event extends the run by that event's step. */
  lemma RunExtend(events: seq<InputData>, n: nat, fmt: Formatter)
    requires n < |events|
    ensures Run(events[..n + 1], fmt) == Extend(Run(events[..n], fmt), events[n], fmt)
  {
    assert events[..n + 1][..n] == events[..n];
  }

  /** The actions of a run are fixed event by event: later events do not
      change what was done for earlier ones. */
  lemma {:induction false} RunPrefix(events: seq<InputData>, n: nat, fmt: Formatter)
    requires n <= |events|
    decreases |events|
    ensures Run(events[..n], fmt).actions == Run(events, fmt).actions[..n]
  {
    if n < |events| {
      var init := events[..|events| - 1];
      assert init[..n] == events[..n];
      RunPrefix(init, n, fmt);
    } else {
      assert events[..n] == events;
    }
  }

  /** Each press of button 0 shows the label of the preset it selects, the
      one at the number of presses so far modulo 3; any other event that
      carries a message shows that message. */
  lemma RunShowsMessages(events: seq<InputData>, j: nat, fmt: Formatter)
    requires j < |events|
    ensures events[j].button == 0 ==>
      Run(events, fmt).actions[j] ==
      ShowMessage(CalibrationText(GetCalibration(Presses(events[..j + 1]) % CALIBRATION_COUNT)))
    ensures events[j].button != 0 && events[j].msg.Some? ==>
      Run(events, fmt).actions[j] == ShowMessage(events[j].msg.value)
  {
    RunPrefix(events, j + 1, fmt);
    RunExtend(events, j, fmt);
    var pre := events[..j + 1];
    assert pre[..|pre| - 1] == events[..j];
    assert pre[|pre| - 1] == events[j];
    var t := Run(events[..j], fmt);
    var r := Step(t.state, events[j], fmt);
    assert Run(events, fmt).actions[j] == Run(pre, fmt).actions[j] == r.action;
    if events[j].button == 0 {
      CalibrationButton(t.state, events[j], fmt);
      assert Presses(pre) == Presses(events[..j]) + 1;
      assert r.state.calIndex == Presses(pre) % CALIBRATION_COUNT;
    }
  }

  /** The main loop over a finite prefix of the received events, with the
      loop's locals updated in place as the firmware does. */
  method RenderLoop(events: seq<InputData>, fmt: Formatter)
    returns (calIndex: nat, mode: PowerDisplay, lastBuf: string,
             signals: seq<Calibration>, actions: seq<DrawAction>)
    ensures Trace(LoopState(calIndex, mode, lastBuf), signals, actions) == Run(events, fmt)
  {
    calIndex, mode, lastBuf := 0, Voltage, "";
    signals, actions := [], [];
    var n := 0;
    while n < |events|
      invariant n <= |events|
      invariant Trace(LoopState(calIndex, mode, lastBuf), signals, actions) == Run(events[..n], fmt)
    {
      ghost var before := Trace(LoopState(calIndex, mode, lastBuf), signals, actions);
      var input := events[n];
      var msg := input.msg;
      if input.button != -1 {
        if input.button == 0 {
          calIndex := (calIndex + 1) % CALIBRATION_COUNT;
          signals := signals + [GetCalibration(calIndex)];
          msg := Some(CalibrationText(GetCalibration(calIndex)));
          lastBuf := "";
        } else if input.button == 1 {
          mode := ModeBack(mode);
        } else if input.button == 2 {
          mode := ModeForward(mode);
        }
      }
      ghost var r := Step(before.state, input, fmt);
      assert calIndex == r.state.calIndex && mode == r.state.mode;
      assert signals == Extend(before, input, fmt).signals;
      assert msg == if input.button == 0 then Some(CalibrationText(GetCalibration(calIndex))) else input.msg;
      assert lastBuf == if input.button == 0 then "" else before.state.lastBuf;
      var powerBuf, unitBuf;
      match mode {
        case Voltage =>
          if input.power.current != 0.0 {
            powerBuf := fmt(RightAligned2Precision3, input.power.voltage);
          } else {
            powerBuf := fmt(RightAligned2Precision3, 0.0);
          }
          unitBuf := "V ";
        case Current =>
          if input.power.current != 0.0 {
            powerBuf := fmt(RightAligned5, input.power.current);
          } else {
            powerBuf := fmt(RightAligned5, 0.0);
          }
          unitBuf := "mA";
        case Power =>
          if input.power.current != 0.0 {
            powerBuf := fmt(RightAligned5, input.power.power);
          } else {
            powerBuf := fmt(RightAligned5, 0.0);
          }
          unitBuf := "mW";
      }
      assert Readout(powerBuf, unitBuf) == ReadoutOf(mode, input.power, fmt);
      if msg.Some? {
        actions := actions + [ShowMessage(msg.value)];
      } else {
        if powerBuf != lastBuf {
          actions := actions + [DrawReadout(powerBuf, unitBuf)];
        } else {
          actions := actions + [KeepScreen];
        }
        lastBuf := powerBuf;
      }
      assert Trace(LoopState(calIndex, mode, lastBuf), signals, actions) == Extend(before, input, fmt);
      RunExtend(events, n, fmt);
      n := n + 1;
    }
    assert events[..n] == events;
  }
}
