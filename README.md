# Power-meter firmware core, modelled in Dafny

A model of the parts of the ESP32-S2 power-meter firmware that hold logic
independent of the hardware:

- **the widget toolkit** (`src/graphics.rs`): the character-count ellipsis
  truncation, the `List` widget with its virtual scrolling window (selection,
  window start, visible lines, scrollbar), and the geometry of `Button`,
  `Label` and `Progress`. Drawing is abstract: `draw` returns a sequence of
  commands (`Row`, `ScrollbarTrack`, `ScrollbarIndicator`, `RoundedBox`,
  `ImageAt`, `TextWithBackground`) instead of pixels;
- **the MAX17048 fuel-gauge driver** (`src/max1704x.rs`): the big-endian
  16-bit register codec, the read-modify-write that replaces the RCOMP byte of
  the CONFIG register (0x0C), the state-of-charge read and the default
  compensation applied at construction, over an abstract I2C handle;
- **the render loop** (`src/main.rs`): the calibration presets, the display
  mode with clamping, the zero-current readout fallback and the
  redraw-only-if-changed decision of the main loop, as a step function and as
  an imperative loop over a finite sequence of received events.

Files: `common.dfy` (`Option`, and `Fallible` for operations that can panic),
`graphics.dfy`, `list_widget.dfy`, `widgets.dfy`, `max1704x.dfy`,
`power_meter.dfy`.

Modelling conventions:

- A Rust panic (a `u32`/`usize` subtraction that underflows, a division by
  zero, an `unwrap` of an error, a text longer than a `heapless::String`'s
  capacity) is the result `Panic` of a `Fallible`. Arithmetic follows the
  overflow-checked build, where an underflow panics. Where a constructor would
  panic, its `requires` excludes that input instead: the `List` constructor
  requires a non-zero first item height, and `Label`/`Progress` require a text
  of at most 256 characters. The pure transition `ScrolledDown` is defined
  only where `scroll_down` does not underflow (`ScrollDownPanics`). The method
  `List.ScrollDown` has no such precondition and returns `Panic` on those
  inputs.
- `List` is a class with the source's fields. Its state as a value is
  `ListModel`. The pure functions `NewList`, `ScrolledDown`, `ScrolledUp`,
  `SelectedAt`, `WithSelectedIndex` and `DrawList` say what each operation
  does to that value. Each method is proved to follow its function, and the
  properties are proved about the functions.
- The I2C handle (`I2cBus`) is a register file plus a trace of every
  transaction attempted. A fixed set of trace positions that the transport
  fails supplies the error outcome. The device is modelled as the driver
  expects: an address-only write selects a register, and a following two-byte
  write stores into it. A device that reads the register address from the
  first byte of every write transaction would see `write`'s second
  transaction differently. The model does not decide which behaviour the
  real chip has.
- Sensor readings are `real`s, and the `core::fmt` rendering of a number is a
  function parameter (`Formatter`) that the model does not interpret.

Behaviours of the code worth knowing:

- `set_selected_index` never moves the window. So, unlike `scroll_down`,
  `scroll_up` and `select_at_pos`, it can leave the selection outside the
  visible window (`WithSelectedIndexCanLeaveWindow`: ten items, four lines,
  index 9).
- `visible_lines` is forced to 1 only for an empty list. A non-empty list
  whose viewport is lower than its first item gets 0 lines. The window
  invariant then fails from the start (`NewListValid`), and `scroll_down`
  panics on such a list (`NewListScrollDownCanPanic`).
- The scrollbar track is placed at x = `width - 20`, measured from 0 and not
  from the widget's own x position.
- Each row's y offset is its position in the window times that row's own
  item height, not the sum of the heights above it.
- The text of a row is always truncated to the width less the 20-pixel
  scrollbar strip, even when no scrollbar is shown.
- `scroll_up` cannot underflow. `scroll_down` underflows `len - 1` on an
  empty list and `window_start + visible_lines - 1` on a zero-line window at
  0, and panics.

## Model

| member | source | states |
|---|---|---|
| `Graphics.TextWithEllipsis` | src/graphics.rs:61-74 | text kept exactly when `charWidth * len <= width`; otherwise the first `width/charWidth - 3` characters plus "...", of length exactly `width/charWidth`, always fitting the width; panics exactly when fewer than three characters fit |
| `Graphics.TextWithEllipsisIdempotent` | src/graphics.rs:64-74 | truncating a truncated text returns it unchanged |
| `Graphics.TextWithEllipsisExample` | src/graphics.rs:64-74 | "HelloWorldExtra" in 100 pixels of 10-pixel characters becomes "HelloWo..." |
| `ListWidget.NewList` | src/graphics.rs:97-109 | selection and window start at 0; one line for an empty list, otherwise the number of first-item rows that fit the u16-truncated height |
| `ListWidget.RowsThatFit` | src/graphics.rs:103 | the line count is the largest n with n rows of the item height fitting the height |
| `ListWidget.NewListValid` | src/graphics.rs:97-109 | a new list satisfies the window invariant iff it is non-empty and one row fits; its window is bounded |
| `ListWidget.ScrolledDown` | src/graphics.rs:190-200 | selection becomes sel+1 below the last item and is kept otherwise (also when out of range); window start moves by 0 or 1, by 1 exactly when the selection leaves the window; invariant and window bound preserved; no-op on the last item |
| `ListWidget.ScrollDownPanics` | src/graphics.rs:192-195 | the inputs on which `scroll_down` underflows: an empty list, or window start plus lines equal to 0 |
| `ListWidget.ScrollDownSafe` | src/graphics.rs:190-200 | under the window invariant `scroll_down` never panics |
| `ListWidget.NewListScrollDownCanPanic` | src/graphics.rs:97-109 | a non-empty list fresh from `new`, with one item taller than the viewport, makes `scroll_down` panic |
| `ListWidget.ScrolledUp` | src/graphics.rs:202-212 | selection becomes max(sel-1, 0); window start moves back by 1 exactly when the selection falls before it; invariant and bound preserved |
| `ListWidget.RowY` | src/graphics.rs:166 | a row's y offset is never above the widget's y, and the first row of the window sits at the widget's y |
| `ListWidget.RowBoxHit` | src/graphics.rs:218-220 | a point hits row i (`RowBox`) exactly when it lies in the widget's columns and within that row's height below its y offset; the box is half-open |
| `ListWidget.FirstHit` | src/graphics.rs:216-224 | the first visible row, in window order, whose box contains the point, or none when no visible row contains it |
| `ListWidget.SelectedAt` | src/graphics.rs:214-227 | the first visible row containing the point becomes the selection, which lies in [windowStart, min(windowStart+lines, len)); unchanged when no row contains it; window untouched; invariant preserved |
| `ListWidget.WithSelectedIndex` | src/graphics.rs:233-237 | a valid index becomes the selection and nothing else changes; no-op for an index past the end; never moves the window; keeps a valid index valid; keeps the window invariant iff the index is past the end or inside the window |
| `ListWidget.WithSelectedIndexCanLeaveWindow` | src/graphics.rs:233-237 | a valid list and an index for which `set_selected_index` breaks the window invariant exist |
| `ListWidget.ApplyOps` | src/graphics.rs:190-227 | from the window invariant, any sequence of scroll-down, scroll-up and select-at-point operations keeps the invariant and the window bound |
| `ListWidget.VisibleText` | src/graphics.rs:149-152 | the item's text truncated by `TextWithEllipsis` to the width less the 20-pixel strip; panics exactly when the width is below 20 or that truncation panics |
| `ListWidget.ShowScrollbar` | src/graphics.rs:141-143 | in a bounded window the scrollbar is shown exactly when some item is not on screen |
| `ListWidget.RowWidth` | src/graphics.rs:168 | a row's box always leaves the 10-pixel margin, with a scrollbar it is `width - 20`, ending exactly where the strip starts, and without one it is `width - 10` |
| `ListWidget.RowCmd` | src/graphics.rs:157-168 | row i panics exactly when its text does; otherwise it is a row for item i at `RowY`, highlighted iff i is selected, with a text that fits the width less the strip |
| `ListWidget.TrackCmd` | src/graphics.rs:172-177 | the track is the 20-pixel strip ending at x = width, from the widget's y, 10 pixels shorter than the widget |
| `ListWidget.Rows` | src/graphics.rs:156-169 | the rows from the window start up to k, in order, one per index; panics iff some row's text panics |
| `ListWidget.DrawList` | src/graphics.rs:154-188 | `draw` panics exactly when a visible row's text panics or the scrollbar does not fit |
| `ListWidget.DrawListCommands` | src/graphics.rs:141-188 | rows for exactly the indices windowStart .. min(windowStart+lines, len) at y = pos.y + k*height, highlighted iff selected, width `width-20` with the scrollbar or `width-10` without; track and indicator drawn iff len > lines |
| `ListWidget.DrawHighlightsOnlySelection` | src/graphics.rs:161-164 | a drawn row is highlighted exactly when it shows the selected item |
| `ListWidget.List.constructor` | src/graphics.rs:97-109 | the new widget's state is `NewList` of its arguments |
| `ListWidget.List.SelectedIndex` | src/graphics.rs:229-231 | under the window invariant the selected index is a valid, visible index |
| `ListWidget.List.Draw` | src/graphics.rs:154-188 | the loop's commands are `DrawList` of the state |
| `ListWidget.List.ScrollDown` | src/graphics.rs:190-200 | `Panic` exactly on the inputs `ScrollDownPanics` names, with the selection already moved if only the second subtraction underflows; otherwise the new state is `ScrolledDown` of the old one, then the redraw |
| `ListWidget.List.ScrollUp` | src/graphics.rs:202-212 | the new state is `ScrolledUp` of the old one, then the redraw |
| `ListWidget.List.SelectAtPos` | src/graphics.rs:214-227 | the hit-test loop with its early break leaves the state `SelectedAt` the point and returns the selection unless the redraw panics |
| `ListWidget.List.SetSelectedIndex` | src/graphics.rs:233-237 | the new state is `WithSelectedIndex` of the old one |
| `Widgets.NewButton` | src/graphics.rs:251-257 | every button is 90 by 50 pixels |
| `Widgets.DrawButton` | src/graphics.rs:263-276 | a rounded box inset by 5 on each side with corner 10, then the image centred in it (equal margins, or one pixel more on the far side); panics iff the image or inset does not fit |
| `Widgets.NewButtonDraws` | src/graphics.rs:250-276 | a button from `new` draws any image of at most 80 by 40 without panicking |
| `Widgets.DrawLabel` | src/graphics.rs:392-398 | one text-with-background command at the label's position and width; the text is unchanged when it fits, and otherwise is its first `width/charWidth - 3` characters plus "..."; panics exactly when truncation does |
| `Widgets.Label.constructor` | src/graphics.rs:369-379 | stores text, position, width and font |
| `Widgets.Label.Draw` | src/graphics.rs:392-398 | the commands are `DrawLabel` of the fields |
| `Widgets.Label.UpdateText` | src/graphics.rs:400-404 | replaces the text and redraws; a text over 256 characters panics |
| `Widgets.Progress.constructor` | src/graphics.rs:302-313 | stores the text |
| `Widgets.Progress.UpdateText` | src/graphics.rs:326-330 | replaces the text; a text over 256 characters panics |
| `Max1704x.Msb` | src/max1704x.rs:86 | the high byte is the value divided by 256 |
| `Max1704x.Lsb` | src/max1704x.rs:87 | the low byte is the value modulo 256 |
| `Max1704x.Decode` | src/max1704x.rs:77-79 | `(buf[0] << 8) \| buf[1]` has high byte buf[0] and low byte buf[1] |
| `Max1704x.Encode` | src/max1704x.rs:84-88 | the MSB/LSB payload decodes back to the value |
| `Max1704x.MergeRcomp` | src/max1704x.rs:63-70 | the merged CONFIG value has high byte rcomp and the old low byte |
| `Max1704x.SocPercent` | src/max1704x.rs:30-35 | raw/256 is at most 255 and equals the raw value's high byte |
| `Max1704x.I2cBus.WriteRead` | src/max1704x.rs:78 | one transaction recorded; on success the buffer holds the selected register's two bytes, MSB first; registers unchanged |
| `Max1704x.I2cBus.Write` | src/max1704x.rs:84-88 | one transaction recorded; on success a one-byte write selects a register and a two-byte write stores into the selected one |
| `Max1704x.Max17048.Init` | src/max1704x.rs:18-21 | the driver owns the bus handle and a zeroed two-byte receive buffer |
| `Max1704x.Max17048.Read` | src/max1704x.rs:77-82 | one write-read of [reg]; success iff the transaction completes, then the result is the register's value; error passed on; registers unchanged |
| `Max1704x.Max17048.Write` | src/max1704x.rs:84-90 | an address-only transaction, then [MSB, LSB]; a failure of the first skips the second; success iff both complete; on success, for a device where an address-only write selects the register, only register reg changes, to the value |
| `Max1704x.Max17048.Compensation` | src/max1704x.rs:63-75 | read of 0x0C, then the address-only write of 0x0C, then (unless that failed) the payload `Encode(MergeRcomp(old CONFIG, rcomp))`: three transactions, or two, or one when the read fails, with no write; success iff all complete; on success, for a device where an address-only write selects the register, only 0x0C changes, its high byte to rcomp |
| `Max1704x.Max17048.Soc` | src/max1704x.rs:30-35 | one read of 0x04; the result is its high byte, at most 255; errors passed on |
| `Max1704x.Max17048.Version` | src/max1704x.rs:26-28 | one read of 0x08, success iff it completes, returned raw |
| `Max1704x.NewMax17048` | src/max1704x.rs:17-24 | issues at most three transactions; panics iff one fails; on success the trace is the CONFIG read, the address-only write and the payload merged with RCOMP 0x97, and, for a device where an address-only write selects the register, CONFIG's high byte becomes 0x97 |
| `PowerMeter.GetCalibration` | src/main.rs:187-194 | indices of 3 and above fall back to 32V 2A |
| `PowerMeter.GetCalibrationCoversPresets` | src/main.rs:187-194 | indices 0, 1, 2 name three different presets, and every preset is one of them |
| `PowerMeter.CalibrationText` | src/main.rs:196-202 | each label is non-empty and fits the 128-byte message |
| `PowerMeter.CalibrationTextDistinct` | src/main.rs:196-202 | different presets have different labels |
| `PowerMeter.Previous` | src/main.rs:85-90 | the mode declared before, none exactly for the first |
| `PowerMeter.Next` | src/main.rs:85-90 | the mode declared after, none exactly for the last |
| `PowerMeter.OrdinalInjective` | src/main.rs:85-90 | a mode is determined by its position |
| `PowerMeter.ModeBack` | src/main.rs:436 | one position back, holding at Voltage |
| `PowerMeter.ModeForward` | src/main.rs:439 | one position forward, holding at Power |
| `PowerMeter.UnitOf` | src/main.rs:456-479 | units are two characters (they fit `String<2>`), only volts padded |
| `PowerMeter.UnitsDistinct` | src/main.rs:456-479 | different modes have different units |
| `PowerMeter.ReadoutOf` | src/main.rs:456-479 | with zero current the number formatted is 0, otherwise the mode's field, with the mode's format and unit |
| `PowerMeter.ZeroCurrentReadout` | src/main.rs:456-479 | with zero current the readout does not depend on the sample's other fields |
| `PowerMeter.Step` | src/main.rs:424-491 | the index stays in [0, 3); a calibration is signalled iff button 0 was pressed, and it is the preset of the new index |
| `PowerMeter.CalibrationButton` | src/main.rs:427-433 | button 0: index (i+1) mod 3, that preset signalled, its label shown, last readout cleared, mode kept |
| `PowerMeter.ModeButtons` | src/main.rs:434-440 | button 1 steps back, button 2 forward, each by one and clamped; other events keep the mode |
| `PowerMeter.NewInputData` | src/main.rs:64-75 | the default event presses no button, carries no message and holds an all-zero sample |
| `PowerMeter.OtherEventsKeepSettings` | src/main.rs:425-442 | an event that is not button 0, 1 or 2, including the default `InputData::new` event, keeps index and mode and signals nothing |
| `PowerMeter.RedrawOnlyIfChanged` | src/main.rs:482-491 | a message is shown and keeps the last readout; otherwise the readout is drawn iff it differs from the last one, which then becomes it |
| `PowerMeter.SameSampleDrawnOnce` | src/main.rs:486-490 | the same sensor event twice in a row is drawn at most once |
| `PowerMeter.ThreeCalibrationPresses` | src/main.rs:429 | three presses of button 0 return the index to where it was |
| `PowerMeter.ReadoutRedrawnAfterCalibration` | src/main.rs:432-490 | after a calibration press the next readout is always drawn, given a formatter that never returns the empty text |
| `PowerMeter.Presses` | src/main.rs:429 | the number of button-0 events, at most the number of events |
| `PowerMeter.Run` | src/main.rs:423-492 | one action per event; one signal per button-0 press; the index is the number of button-0 presses mod 3; the signals are the presets in the cycle 1, 2, 0, 1, ... |
| `PowerMeter.RunExtend` | src/main.rs:423-492 | running one more event extends the run by that event's step |
| `PowerMeter.RunPrefix` | src/main.rs:423-492 | the actions for the first n events do not depend on the events after them |
| `PowerMeter.RunShowsMessages` | src/main.rs:427-484 | the action for a button-0 event shows the label of the preset selected by the presses so far (mod 3); the action for any other event with a message shows that message |
| `PowerMeter.RenderLoop` | src/main.rs:423-492 | the imperative loop over received events ends in the state, signals and actions of `Run` |

## Left out

- The embassy tasks (button watchers, sensor poller) and the input channel of capacity 1; the single-slot calibration signal is reduced to the sequence of signalled presets; the ticker, timers and debounce delays (src/main.rs:124-185). These are cooperative concurrency and timing.
- Peripheral bring-up: clocks, GPIO, LEDC backlight, SPI and display initialisation, and the mutex that shares the I2C bus (src/main.rs:222-326). This is hardware plumbing.
- The startup screens "No ina219 found" and the battery voltage (src/main.rs:380-404). They depend on device probes and float formatting.
- The INA219 driver, text bounding boxes, font and seven-segment rendering, and all pixel output: these are external libraries. Drawing is abstract commands, and a failing draw target is not modelled. The main loop ignores draw errors anyway.
- Colours and the `Theme`, and the `get_*_style` helpers: a row's background is reduced to a `highlighted` flag.
- `ListWidget.DrawList`: the scrollbar indicator carries no height or offset, because both are float computations (src/graphics.rs:179-180).
- `vcell`, `charge_rate` and `temp_compensation` (src/max1704x.rs:38-61): float scaling and a float-to-`u8` cast.
- `Progress::draw` (src/graphics.rs:332-356): its positions depend on foreign image sizes. `Progress.UpdateText` therefore does not model the redraw.
- `Button::set_image_drawable` and the `get_bounding_box` accessors: plain field assignment and reads.
- The display helpers `display_text`, `display_text_with_background` and `display_image_with_background` appear only as the draw commands they emit.
- Text lengths: `text.len()` counts UTF-8 bytes and `split_at` panics off a character boundary. The model counts characters, as for ASCII text.
- `Graphics.TextWithEllipsis`: the `u32` product `char_width * len` is unbounded here, so the panic on overflow of that product is not modelled. Row offsets cast to `i32` are unbounded too.
- Release builds without overflow checks wrap instead of panicking. The model takes the overflow-checked behaviour.
- `PowerMeter.RenderLoop`: the 64-byte capacity of `power_display_buf` is not tracked, because the formatter is abstract.
- Commented-out code (src/main.rs:204-219, 332-338, 408-417, 448-455).
