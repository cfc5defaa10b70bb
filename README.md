# EquiliBot Scout firmware core, in Dafny

This project models the logic of the EquiliBot Scout firmware, an Arduino
UNO R4 sketch driving a 12 x 8 LED matrix, Modulino buttons, a knob, a
motion sensor and a pixel strip. It has six parts:

- **`LED_Matrix`** (`led_matrix.dfy` over `frames.dfy` and `numerals.dfy`).
  The 96-cell frame buffer is three 32-bit words `fi`, `sc`, `tr`.
  - `set_bit` ORs one bit in, most significant first within each word.
  - `draw_point` truncates `y * 12 + x` to a cell index.
  - `generate_frame` places four glyphs of the 17-entry 5 x 3 font in columns 0, 3, 6 and 9.
  - `print(int32, base)` turns a number into four symbol codes, with code 16 as the minus sign.
  - `clean`, `show`, `clear`, `fill` and `flash` are also modelled. The display driver is the list of frames loaded into it.
- **`literals::Quantity`** (`quantity.dfy`). A number tagged with mass, length and time exponents.
  - `*` and `/` add and subtract the exponents.
  - `+`, `-` and the comparisons need equal exponents.
  - Scalars keep the exponents.
  - The literal suffixes apply fixed scale factors.
- **`ctrl::pid_controller`** (`pid_controller.dfy`). A PID controller with an integral accumulator, the previous error and time, and a first-sample flag.
- **`loop()`** (`main_loop.dfy`, `motion_filter.dfy`). One pass of the loop:
  - the button block that switches modes;
  - the five-phase `PIXEL_TEST` cycle;
  - the `SHOW_KNOB` clamp and display;
  - the `SHOW_IMU` motion filter (offset low-pass, smoothing, deadzone, damped integration) and the row drawn from the position.
- **`Logger`** (`logger.dfy`).
  - The `{}` formatter and the 255-character flash copy.
  - The `[LEVEL] [file:line] ` header, the level methods and the switches.
  - Each output stream is the text written to it.
- **Arduino helpers** (`arduino.dfy`). `constrain`, unsigned 32-bit time differences, and float-to-int truncation.

Representation choices:

- `uint32_t` words are natural numbers below 2^32. `|` is bitwise OR, defined bit by bit, and `val << k` is 2^k or 0.
- `float` and `double` are `real`.
- Readings from the hardware (buttons, knob, motion sensor, `micros()`, `millis()`) are parameters of the pass.

Where the code and its own comments disagree, the model follows the code:

- The layout comment in `generate_frame` labels cell 63 `t00`, but `set_bit` puts cell 63 in bit 0 of `sc` (`Frames.CornerBits`).
- Pressing all three buttons ends the pass in `SHOW_KNOB`, not `IDLE`: the A branch at src/main.cpp:103 sees the `IDLE` just set at line 100 and overrides it (`MainLoop.AllThree`).

## Model

| member | source | states |
|---|---|---|
| Arduino.Constrain | src/main.cpp:147 | `constrain(x, lo, hi)` lies in [lo, hi], is x inside that range, lo below it and hi above it |
| Arduino.ConstrainReal | src/main.cpp:260-261 | the same for `float` |
| Arduino.Elapsed | src/main.cpp:92-93 | `now - earlier` on `uint32_t` is the plain difference, or that difference plus 2^32 when the counter wrapped |
| Arduino.Trunc | src/led_matrix.cpp:58-59 | the float-to-int conversion rounds toward zero, from either side |
| Frames.OrShifted | src/led_matrix.cpp:68-73 | `w \| (val << k)` stays a 32-bit word, sets bit k exactly when val is true, and keeps every other bit of w |
| Frames.WithBit | src/led_matrix.cpp:62-74 | after `set_bit(idx, val)` a cell is lit iff it was lit before, or it is idx and val is true |
| Frames.WithBitFalse | src/led_matrix.cpp:68-73 | `set_bit(idx, false)` leaves the buffer as it was |
| Frames.WithBitIdempotent | src/led_matrix.cpp:68-73 | setting the same bit twice is setting it once |
| Frames.WithBitCommutes | src/led_matrix.cpp:68-73 | two `set_bit` calls in either order give the same buffer |
| Frames.CornerBits | src/led_matrix.cpp:62-74 | cells 0, 31, 32, 63, 64 and 95 are the top and bottom bits of `fi`, `sc`, `tr`; cell 63 is bit 0 of `sc` |
| Frames.FrameExt | include/led_matrix.hpp:12-16 | the three words hold nothing but the 96 cells: equal cells mean equal buffers |
| Frames.FullFrames | src/led_matrix.cpp:36-40 | `full_off` has no lit cell and is the only buffer with none |
| Frames.FullOnLit | src/led_matrix.cpp:42-46 | `full_on` lights all 96 cells and is the only buffer that does |
| Frames.FontShapes | src/led_matrix.cpp:16-34 | `digits_font` holds 17 glyphs of five rows; 0 is a ring round an unlit middle column, 8 lights all but the middle cells of rows 1 and 3, and 1 has its stem in the middle column |
| Frames.FontBit | src/led_matrix.cpp:99-104 | the cell in row i, column j of glyph `dig` is bit 2 - j of the font row, so column 0 is the row's most significant bit |
| Frames.DashGlyph | src/led_matrix.cpp:33 | glyph 16 lights exactly the middle row of its 5 x 3 block |
| Frames.Symbol | src/led_matrix.cpp:94-97 | a code is drawn as itself up to 16, and every larger code as the dash |
| Frames.Glyph | src/led_matrix.cpp:99-106 | cell idx belongs to a glyph placed at row r, column c iff it is inside the block and the font bit `(p >> (2 - j)) & 1` is set |
| Frames.GlyphStep | src/led_matrix.cpp:100-104 | step (i, j) of `set_digit` adds exactly cell (r + i) * 12 + c + j, and only when the font says so |
| Frames.RenderAt | src/led_matrix.cpp:99-111 | row i, column 3k + j of the rendering is row i, column j of the glyph of code k |
| Frames.Render | src/led_matrix.cpp:76-112 | a cell of the rendering is lit iff it lies in the top five rows and the font lights its row and column within the glyph of its block's clamped code |
| Frames.RenderBottomDark | src/led_matrix.cpp:99-111 | rows 5 to 7 (cells 60 to 95) are never lit by a rendering |
| Frames.RenderLeavesTrZero | src/led_matrix.cpp:114-118 | a rendering on a clean buffer leaves `tr` zero |
| Numerals.PrintBase | src/led_matrix.cpp:124 | the base used lies in [2, 16]: the given one when in range, 2 below it and 16 above it |
| Numerals.Shown | src/led_matrix.cpp:126-129 | the value shown lies in [-(b^3 - 1), b^4 - 1]: val itself when inside, the nearer bound when outside |
| Numerals.MaxPositive | src/led_matrix.cpp:126 | `max_positive` lies between 15 and 0xFFFF for every base in [2, 16] |
| Numerals.MinNegative | src/led_matrix.cpp:127 | `min_negative` lies between -0xFFF and -7 for every base in [2, 16] |
| Numerals.RangeEnds | src/led_matrix.cpp:126-127 | `max_positive` is what four digits b - 1 stand for, and `min_negative` what a dash and three digits b - 1 stand for |
| Numerals.FromCodes | src/led_matrix.cpp:131-148 | the number a row of four codes stands for in a base of at most 16 lies strictly within ±2^21, so it fits an `int32_t`; it inverts `ToCodes` (see DecodeEncode) |
| Numerals.ToCodes | src/led_matrix.cpp:131-148 | the four codes are well formed (digits below the base, or a dash before a nonzero three-digit magnitude), read back as the shown value, and start with a dash iff the value is negative |
| Numerals.DecodeEncodeNegative | src/led_matrix.cpp:131-139 | a dash and three digits with a nonzero magnitude are what `print` produces for minus that magnitude |
| Numerals.DecodeEncodePositive | src/led_matrix.cpp:140-148 | four digits below the base are what `print` produces for the number they stand for |
| Numerals.DecodeEncode | src/led_matrix.cpp:131-148 | every well-formed row of codes is produced by exactly the number it stands for, so the encoding is a bijection onto well-formed codes |
| Numerals.DecimalRange | include/led_matrix.hpp:30 | with the default base 10 the printable range is -999 to 9999, and a value is shown unchanged iff it is in that range |
| LedMatrix.PointIndex | src/led_matrix.cpp:58-59 | the index is `y * 12 + x` truncated toward zero: its integer part when the sum is non-negative, the integer above it when the sum is negative |
| LedMatrix.PointIndexWhole | src/led_matrix.cpp:58-59 | for whole x in 0..11 and y in 0..7, `draw_point(x, y)` lights cell 12y + x, which lies in 0..95 |
| LedMatrix.FlashFrames | src/led_matrix.cpp:175-182 | `flash(times)` loads 2 * times frames, full-on at even positions and full-off at odd ones |
| LedMatrix.FlashEndsDark | src/led_matrix.cpp:175-182 | after a flash of at least one repetition the last frame shown is all dark, the one before it all lit |
| LedMatrix.LedMatrix.constructor | src/led_matrix.cpp:50-52 | the buffer starts as three zero words and nothing has been loaded |
| LedMatrix.LedMatrix.Load | src/led_matrix.cpp:154 | `loadFrame` appends the frame to what the display received and leaves the buffer alone |
| LedMatrix.LedMatrix.SetBit | src/led_matrix.cpp:62-74 | the new buffer is the old one with the bit of cell idx ORed in, and nothing is sent |
| LedMatrix.LedMatrix.DrawPoint | src/led_matrix.cpp:58-60 | `draw_point(x, y)` is `set_bit(trunc(y * 12 + x), true)` |
| LedMatrix.LedMatrix.SetDigit | src/led_matrix.cpp:99-106 | the nested loops OR exactly the lit cells of the glyph into the buffer, leaving every other cell as it was |
| LedMatrix.LedMatrix.GenerateFrame | src/led_matrix.cpp:76-112 | the buffer gains exactly the rendering of the four clamped codes, ORed over what it held |
| LedMatrix.LedMatrix.Show | src/led_matrix.cpp:153-155 | `show()` sends the current buffer and keeps it |
| LedMatrix.LedMatrix.Clean | src/led_matrix.cpp:161-165 | `clean()` zeroes the three words and sends nothing |
| LedMatrix.LedMatrix.Clear | src/led_matrix.cpp:167-169 | `clear()` sends all-off and keeps the buffer |
| LedMatrix.LedMatrix.Fill | src/led_matrix.cpp:171-173 | `fill()` sends all-on and keeps the buffer |
| LedMatrix.LedMatrix.PrintCodes | src/led_matrix.cpp:114-118 | `print(d0..d3)` leaves exactly the rendering of the four codes in the buffer and sends it |
| LedMatrix.LedMatrix.PrintValue | src/led_matrix.cpp:120-151 | `print(val, base)` extracts by `%` and `/` exactly the codes `ToCodes` specifies, leaves their rendering in the buffer and sends it |
| LedMatrix.LedMatrix.Flash | src/led_matrix.cpp:175-182 | the loop sends on, off `times` times, waits `period >> 1` ms twice each time, and keeps the buffer |
| Quantities.Mul | include/literals.hpp:41-44 | a product's exponents are the sums of the factors' exponents, and its amount is the product of theirs |
| Quantities.Div | include/literals.hpp:45-48 | a quotient's exponents are the differences of the operands' exponents, and its amount times the divisor's gives the dividend's |
| Quantities.Add | include/literals.hpp:51-54 | a sum needs equal exponents and keeps them; the amounts add |
| Quantities.Sub | include/literals.hpp:55-58 | a difference needs equal exponents and keeps them; adding b's amount back gives a's |
| Quantities.Scale | include/literals.hpp:61-64 | `q * s` keeps q's exponents and scales the amount by s |
| Quantities.DivScalar | include/literals.hpp:65-68 | `q / s` keeps q's exponents; the amount times s gives q's |
| Quantities.ScaleLeft | include/literals.hpp:70-73 | `s * q` keeps q's exponents and scales the amount by s |
| Quantities.ScalarDivAsWritten | include/literals.hpp:74-77 | `s / q` as declared carries q's own exponents; the amount times q's gives s |
| Quantities.ScalarDiv | include/literals.hpp:74-77 | the corrected `s / q` carries q's exponents negated; the amount times q's gives s |
| Quantities.Eq | include/literals.hpp:80-83 | for equal exponents, `==` holds iff the two quantities are the same |
| Quantities.Ne | include/literals.hpp:84-87 | `!=` is the negation of `==` |
| Quantities.Lt | include/literals.hpp:88-91 | `<` excludes `==`, and one of `<`, `==` or a larger left value holds |
| Quantities.Gt | include/literals.hpp:92-95 | `a > b` is `b < a` |
| Quantities.Le | include/literals.hpp:96-99 | `<=` is `<` or `==` |
| Quantities.Ge | include/literals.hpp:100-103 | `a >= b` is `b <= a` |
| Quantities.Seconds | include/literals.hpp:106-111 | `x s` is a duration of x seconds |
| Quantities.Millis | include/literals.hpp:106-111 | `x ms` is a duration of x / 1000 seconds |
| Quantities.Micros | include/literals.hpp:106-111 | `x us` is a duration of x / 10^6 seconds |
| Quantities.Kilograms | include/literals.hpp:114-117 | `x kg` is a mass of x kilograms |
| Quantities.Grams | include/literals.hpp:114-117 | `x g` is a mass of x / 1000 kilograms |
| Quantities.Kilometres | include/literals.hpp:120-125 | `x km` is a length of 1000 x metres |
| Quantities.Metres | include/literals.hpp:120-125 | `x m` is a length of x metres |
| Quantities.Millimetres | include/literals.hpp:120-125 | `x mm` is a length of x / 1000 metres |
| Quantities.KiloNewtons | include/literals.hpp:128-134 | `x kN` is a force of 1000 x newtons |
| Quantities.Newtons | include/literals.hpp:128-134 | `x N` is a force of x newtons |
| Quantities.MilliNewtons | include/literals.hpp:128-134 | `x mN` is a force of x / 1000 newtons |
| Quantities.KiloJoules | include/literals.hpp:137-142 | `x kJ` is an energy of 1000 x joules |
| Quantities.Joules | include/literals.hpp:137-142 | `x J` is an energy of x joules |
| Quantities.MilliJoules | include/literals.hpp:137-142 | `x mJ` is an energy of x / 1000 joules |
| Quantities.KiloWatts | include/literals.hpp:145-150 | `x kW` is a power of 1000 x watts |
| Quantities.Watts | include/literals.hpp:145-150 | `x W` is a power of x watts |
| Quantities.MilliWatts | include/literals.hpp:145-150 | `x mW` is a power of x / 1000 watts |
| Quantities.Hertz | include/literals.hpp:153-154 | `x Hz` is a frequency of x hertz |
| Quantities.LiteralDims | include/literals.hpp:24-38 | every literal suffix yields the exponents of its alias: `s`, `ms`, `us` a duration (0,0,1), `kN`, `N`, `mN` a force (1,1,-2), and so on |
| Quantities.LiteralScales | include/literals.hpp:106-150 | a thousand of the smaller unit is one of the larger for every prefix pair, and a thousand `us` are one `ms` |
| Quantities.DerivedDims | include/literals.hpp:24-48 | the aliases agree with the operators: m/s is `val_t`, `val_t`/s is `acc_t`, `acc_t`/s is `jrk_t`, kg x `acc_t` is `frc_t`, N x m is `eng_t`, J/s is `pwr_t`, Hz x s is dimensionless |
| Quantities.MulAlgebra | include/literals.hpp:41-44 | products commute and associate, on values and exponents |
| Quantities.MulDivInverse | include/literals.hpp:41-48 | dividing by b undoes multiplying by b, and the other way round |
| Quantities.AddSubInverse | include/literals.hpp:51-58 | (a + b) - b == a and (a - b) + b == a |
| Quantities.ScaleInverse | include/literals.hpp:61-73 | `q * s == s * q`, and dividing by s undoes scaling by s |
| Quantities.Comparisons | include/literals.hpp:80-103 | the six comparisons compare the values only: `!=` negates `==`, `>` and `>=` mirror `<` and `<=`, `<=` is `<` or `==`, and exactly one of `<`, `==`, `>` holds |
| Quantities.ScalarDivDims | include/literals.hpp:74-77 | as written, 1.0 / 2s is a duration and its product with 2s has time exponent 2; corrected, it is a frequency and the product is the dimensionless 1 |
| Quantities.ScalarDivIsQuotient | include/literals.hpp:74-77 | the corrected `s / q` is a dimensionless s divided by q and multiplies back to s; the declared one agrees with it iff q is dimensionless |
| Pid.Fresh | include/pid_controller.hpp:27-41 | a new controller has the given gains, target zero, nothing accumulated, waits for a first sample, and is unchanged by `reset()` |
| Pid.Next | include/pid_controller.hpp:46-65 | an update records the error and the time, clears the first-sample flag, keeps target and gains, and adds err * (now - prev_time) to the integral except on the first sample |
| Pid.Step | include/pid_controller.hpp:45-69 | the state after `update` is `Next`'s; the first update returns err * kp + int * ki (just err * kp from a zero integral), a later one err * kp + int' * ki - (err - prev_err) / dt * kd |
| Pid.Reset | include/pid_controller.hpp:71-75 | `reset()` zeroes the integral and previous error, sets the first-sample flag, and keeps target, gains and prev_time |
| Pid.ResetIsFresh | include/pid_controller.hpp:71-75 | after `reset()` the next update gives the same state and output as a freshly made controller with the same target and gains, whatever was accumulated |
| Pid.ZeroError | include/pid_controller.hpp:45-69 | zero error on the first two samples gives output 0 both times, whatever the gains |
| Pid.IntegralGrows | include/pid_controller.hpp:53-54 | with only ki > 0 and a constant positive error, the output grows strictly between samples as time moves forward |
| Pid.RunIntegral | include/pid_controller.hpp:53 | over a run of later samples the accumulator gains exactly the rectangle-rule sum of err * dt, and target and gains stay fixed |
| Pid.TestedOutputs | include/pid_controller.hpp:45-75 | the outputs the unit tests expect: 50 then 25 (P), 4040 (PI), 30.01 (PD), 440.005 (PID), -25 above target, and 50 after a reset |
| Pid.PidController.constructor | include/pid_controller.hpp:27-34 | target, gains, integral, previous error and time start at zero with the first-sample flag set |
| Pid.PidController.WithGains | include/pid_controller.hpp:36-41 | the gain constructor is the default state with the given kp, ki, kd |
| Pid.PidController.Update | include/pid_controller.hpp:45-69 | the new state and the output are those of `Step`, about which the lemmas above are proved |
| Pid.PidController.ResetState | include/pid_controller.hpp:71-75 | `reset()` zeroes the integral and previous error, sets the first-sample flag, and changes nothing else |
| Pid.PidController.GetTarget | include/pid_controller.hpp:77 | returns the target |
| Pid.PidController.GetKp | include/pid_controller.hpp:80 | returns kp |
| Pid.PidController.GetKi | include/pid_controller.hpp:83 | returns ki |
| Pid.PidController.GetKd | include/pid_controller.hpp:86 | returns kd |
| Pid.PidController.SetTarget | include/pid_controller.hpp:78 | changes the target and nothing else |
| Pid.PidController.SetKp | include/pid_controller.hpp:81 | changes kp and nothing else |
| Pid.PidController.SetKi | include/pid_controller.hpp:84 | changes ki and nothing else |
| Pid.PidController.SetKd | include/pid_controller.hpp:87 | changes kd and nothing else |
| MotionFilter.FilterDt | src/main.cpp:204-207 | the time step used always lies in [0.001, 0.1]: the measured one iff that lies there, 0.02 otherwise |
| MotionFilter.Accel | src/main.cpp:227-228 | after the deadzone the acceleration is the smoothed value when that is above 0.01 in magnitude and 0 otherwise |
| MotionFilter.LowPass | src/main.cpp:215-220 | the new offset estimate lies between the old one and the sample, and the high-pass part is 98 % of the sample's distance from the old estimate |
| MotionFilter.Smooth | src/main.cpp:219-224 | the smoothed value is 30 % of the old one plus 70 % of 98 % of the sample's distance from the old estimate; a sample equal to the estimate only lets it decay |
| MotionFilter.Damp | src/main.cpp:239-249 | damping keeps the sign of the velocity, never increases its magnitude, and strictly decreases a nonzero one |
| MotionFilter.StepAxis | src/main.cpp:215-253 | one tick updates both estimates, adds the acceleration times 9.81 dt to the velocity before damping when outside the deadzone, and moves the position by the new velocity times dt |
| MotionFilter.AtRest | src/main.cpp:215-253 | an axis at rest whose offset estimate equals the sample stays exactly as it is |
| MotionFilter.DeadzoneHolds | src/main.cpp:226-253 | a smoothed reading inside the deadzone leaves the velocity only damped and moves the position by the damped velocity alone |
| MotionFilter.DisplayRowAsWritten | src/main.cpp:256-261 | `display_y` as written is 5 pos_y when that lies in [-50, 50], and -50 or 50 beyond |
| MotionFilter.DisplayRowOutOfRange | src/main.cpp:261-275 | with that clamp a position of -1 sends `draw_point(0, display_y)` to index -60, and a position of 2 sends `draw_point(11, display_y)` to index 131 |
| MotionFilter.DisplayRowAsWrittenEscapes | src/main.cpp:261-275 | every position of -0.02 or less, or of 1.6 or more, makes the first `draw_point` miss the 96 cells |
| MotionFilter.NearZeroRow | src/main.cpp:256-275 | at pos_y = -0.01 the clamp as written draws cells 0, 0, 1, ..., 10 (cell 11 dark), while the corrected clamp draws cell 11 too |
| MotionFilter.DisplayRow | src/main.cpp:256-261 | the corrected `display_y` is 5 pos_y when that lies in [0, 7], and 0 or 7 beyond |
| MotionFilter.RowPoints | src/main.cpp:264-275 | with y in [0, 7], `draw_point(x, y)` for x in 0..11 lights cell floor(12y) + x, always inside 0..95 |
| MainLoop.Entered | src/main.cpp:99-129 | a branch of the button block only enters the mode of a pressed button, and one runs whenever a button for a mode other than the current one is down |
| MainLoop.NextState | src/main.cpp:99-129 | the mode changes only through the branch of the new mode, and the block never ends in `IDLE` unless it started there |
| MainLoop.NoPress | src/main.cpp:99-129 | with no button down no branch runs and the mode is kept |
| MainLoop.Priority | src/main.cpp:103-129 | A beats B and B beats C, a button whose mode is current is passed over, and from `SHOW_KNOB` A with B enters `SHOW_IMU` |
| MainLoop.OnlyPressedModes | src/main.cpp:99-129 | the mode changes only to the mode of a pressed button, and short of all three buttons a branch runs iff the mode changes |
| MainLoop.AllThree | src/main.cpp:99-106 | all three buttons run the A branch and end the pass in `SHOW_KNOB` |
| MainLoop.NextPhase | src/main.cpp:163-193 | every advance moves the sub-state, and only S_CLEAN starts over at S1 |
| MainLoop.Apply | src/main.cpp:163-193 | S1 to S4 set pixels 2k and 2k + 1 of phase k to the brightness and keep every other pixel; S_CLEAN turns all off |
| MainLoop.PhaseCycle | src/main.cpp:163-193 | the sub-state moves at every advance and comes back after five: S1, S2, S3, S4, S_CLEAN, S1 |
| MainLoop.FullCycle | src/main.cpp:163-193 | from a dark strip the four lighting phases set pixels 0 to 7, and only those, to the brightness, and S_CLEAN clears them all |
| MainLoop.PixelClock | src/main.cpp:145 | the timestamp is the stored one, or on first entry the time of this pass, so that no time has gone by on it |
| MainLoop.Due | src/main.cpp:160 | a pass advances only once the timestamp exists and `millis() - last_update_time`, taken modulo 2^32, is at least 200 |
| MainLoop.DueTiming | src/main.cpp:145-161 | no advance on the pass that first enters the mode nor before 200 ms, and the unsigned difference still advances across a wrap of `millis()` |
| MainLoop.KnobShown | src/main.cpp:294-301 | the knob value clamped to [-999, 9999] is left alone by `print`'s own clamp and its codes read back as it |
| MainLoop.Dt | src/main.cpp:92-96 | `dt` is the unsigned `micros()` difference in seconds: never negative, below 4295 s, and the elapsed time also across a wrap of the counter |
| MainLoop.AfterButtons | src/main.cpp:107-124 | only the B branch touches the filters: it zeroes velocity, position and smoothed value and seeds the offset estimate, leaving an axis that a sample equal to the seed does not move |
| MainLoop.Firmware.constructor | src/main.cpp:63-74 | the loop starts in `IDLE` with zeroed filters and the first `micros()` stamp |
| MainLoop.Firmware.SwitchMode | src/main.cpp:99-129 | the button block leaves the mode `NextState` gives, clears the display iff a branch ran, and resets the filters (seeding the offsets) only when B ran |
| MainLoop.Firmware.PixelPass | src/main.cpp:136-198 | the knob is set to the brightness clamped to [0, 100]; the phase advances and its pixels are set only when 200 ms have passed, the timestamp being set on first entry |
| MainLoop.Firmware.KnobPass | src/main.cpp:287-303 | a press zeroes the knob and leaves the display alone; otherwise the knob gets the clamped value and the display is cleared, then shows that value's rendering |
| MainLoop.Firmware.ImuPass | src/main.cpp:201-277 | both axes take one filter step with the checked time step, then one frame is sent whose lit cells are exactly the twelve consecutive cells from floor(12 y), y being the corrected display row; nothing is waited |
| MainLoop.Firmware.DrawRow | src/main.cpp:263-275 | the twelve `draw_point(x, display_y)` calls add exactly cells floor(12y) .. floor(12y) + 11 to the buffer |
| MainLoop.Firmware.Tick | src/main.cpp:92-305 | one pass: the mode after the buttons, the filters, the pixel sub-state, the knob value, every frame sent and the final buffer, each stated as the function of the previous state and the readings |
| Logging.LevelName | include/logger.hpp:86-136 | every level name is five characters, `INFO ` and `WARN ` padded |
| Logging.Terminated | include/logger.hpp:32 | `while (*format)` reads the characters before the first NUL, and no further |
| Logging.Format | include/logger.hpp:31-47 | with no arguments a format without a terminator is printed as it is |
| Logging.FlashCopy | include/logger.hpp:50-56 | the buffer formatted is the format up to its terminator or its 255th character, whichever comes first: a NUL-free prefix that ends at the format's end, at 255 characters or at a NUL |
| Logging.FormatNoArgs | include/logger.hpp:31-35 | with no arguments the format is copied up to its terminator, `{}` included |
| Logging.FormatPlain | include/logger.hpp:37-47 | a format without placeholders is copied as it is, whatever the arguments: surplus arguments are never printed |
| Logging.FormatFirst | include/logger.hpp:37-47 | the first `{}` after plain text takes the first argument, and the rest is formatted with the remaining arguments |
| Logging.FormatFills | include/logger.hpp:37-47 | a template of plain pieces has each `{}` replaced, left to right, by the next argument, and arguments beyond the placeholders are dropped |
| Logging.FormatSurplusPlaceholders | include/logger.hpp:31-47 | placeholders beyond the arguments are printed as `{}` |
| Logging.FormatStopsAtNul | include/logger.hpp:32-39 | nothing after a terminator is printed |
| Logging.FormatChar | include/logger.hpp:40-45 | a character that does not open a placeholder, such as a `{` not followed by `}`, is copied as it is |
| Logging.FormatPlaceholder | include/logger.hpp:40-43 | a `{}` with an argument left prints that argument, then formats the rest with the remaining arguments |
| Logging.Header | include/logger.hpp:58-71 | the header starts with `[LEVEL] ` only when levels are shown, ends with `[file:line] ` only when locations are, is empty when both are off, and has the length of the parts shown |
| Logging.Message | include/logger.hpp:58-71 | a message is the header, then the body formatted from the 255-character copy, then `\r\n` |
| Logging.Write | include/logger.hpp:33 | printing to a stream extends that stream's text by exactly the printed text |
| Logging.WriteOthers | include/logger.hpp:33 | printing to one stream leaves every other stream's text as it was |
| Logging.Logger.constructor | include/logger.hpp:24-26 | both header parts are shown and the output is stream 0 (`Serial`), nothing written yet |
| Logging.Logger.SetShowLevel | include/logger.hpp:80 | changes the level switch and nothing else |
| Logging.Logger.SetShowLocation | include/logger.hpp:81 | changes the location switch and nothing else |
| Logging.Logger.SetOutput | include/logger.hpp:82 | changes the output and nothing else |
| Logging.Logger.Put | include/logger.hpp:33 | `m_output->print(s)` appends s to the output stream only |
| Logging.Logger.PrintPlain | include/logger.hpp:31-35 | the loop appends the format, with no arguments, as `Format` defines it |
| Logging.Logger.PrintFormatted | include/logger.hpp:37-47 | the loop and the recursion together append exactly `Format(fmt, args)`, about which the lemmas above are proved |
| Logging.Logger.PrintHeader | include/logger.hpp:58-71 | appends exactly the header for the current switches |
| Logging.Logger.PutLevel | include/logger.hpp:59-63 | appends `[`, the level name and `] ` |
| Logging.Logger.PutLocation | include/logger.hpp:64-70 | appends `[`, file, `:`, line and `] ` |
| Logging.Logger.Log | include/logger.hpp:84-136 | with no output nothing is written; otherwise exactly header, body from the 255-character copy, and line end are appended to the output stream |

## Left out

- Peripheral I/O is not modelled:
  - The Modulino knob, buttons, motion sensor and pixel strip become readings passed to each pass, and values written to fields.
  - `ArduinoLEDMatrix::begin`, `LED_Matrix::begin` and the destructor's `m_matrix->clear()` are also left out; those are driver calls with no logic.
  - `Serial` and `begin(baud)` are left out.
  - `delay` only adds to a waited-milliseconds counter.
  - The clocks and the WiFi include are not modelled either.
- `setup()` is not modelled. `MainLoop.Firmware.constructor` starts from the state it leaves: knob 0, strip dark.
- The colours of the pixel strip are not modelled, because the `wave` lambda uses `sin` on floats. A pixel is its brightness; `pixels.show()` is not modelled.
- IEEE `float` and `double` rounding is not modelled: the PID, the quantities and the motion filter are over exact reals.
- The `LOG_*` calls inside `loop()` and `setup()` are left out, as are the periodic position log and the knob log. They only write to `Serial`.
- Logging infrastructure is left out: the singleton `instance()`, the compile-time `LOG_LEVEL` selection and the macros.
- `Stream::print` number rendering is assumed: arguments and the line number arrive as already rendered text. `println()` is `\r\n`.
- `display_x` is computed in `SHOW_IMU` but never used. It is not modelled.
- utils/frame_gen.py is not part of this model. It is a host-side preview script with its own 6 x 8 font.
- Pid.PidController.Update: requires the time to move after the first sample. With equal times `update` divides by zero: the C++ result is infinite or NaN, which reals cannot represent.
- Quantities.Div: requires a nonzero divisor, because real division by zero has no value. The same applies to Quantities.DivScalar, Quantities.ScalarDiv and Quantities.ScalarDivAsWritten.
- Quantities.Seconds and the other literal functions take one `real` for both the `long double` and the `unsigned long long` overload. Both convert to `double` first.
- LedMatrix.LedMatrix.SetBit: requires idx in 0..95, and LedMatrix.LedMatrix.DrawPoint requires the same of its cell. Other indices shift by a negative amount or by 32 or more, which C++ leaves undefined.
- MainLoop.Firmware.DrawRow: the twelve `draw_point(0..11, display_y)` calls are written as one loop over x = 0..11, with the same calls in the same order.
- MainLoop.Firmware.ImuPass: draws the row from the corrected `display_y` of `MotionFilter.DisplayRow`, not the clamp to [-50, 50] as written (see Findings). This changes defined behaviour too: for pos_y in (-1/60, 0) the code as written draws cells 0, 0, 1, ..., 10 and leaves cell 11 dark, where the model draws cells 0 to 11 (`MotionFilter.NearZeroRow`).
- MainLoop.Firmware.Tick: inherits the substitution of `MainLoop.Firmware.ImuPass`.
- MainLoop.Firmware.PixelPass: takes one `millis()` value for the three reads at src/main.cpp:160-162; the code reads the clock three times, so the timestamp it stores and the time it passes to `wave` may be later than the time it tested.
- The properties of the PID tests are stated about the header's code; test/test_pid_controller.cpp is not part of this model.

## Findings

| source | as written | input that shows it | evidently intended | confidence | as-written member | corrected member |
|---|---|---|---|---|---|---|
| include/literals.hpp:74-77 | `s / q` returns `Quantity<M, L, T>`, the exponents of q | `1.0 / 2s` is typed as a duration, and its product with `2s` has time exponent 2 | the reciprocal's exponents, `Quantity<-M, -L, -T>`, so that `1.0 / 2s` is a frequency | high, not executed | Quantities.ScalarDivAsWritten, Quantities.ScalarDivDims | Quantities.ScalarDiv, Quantities.ScalarDivIsQuotient |
| src/main.cpp:256-275 | `display_y` is clamped to [-50, 50] before the twelve `draw_point(x, display_y)` calls | `pos_y = -1` gives index -60 for x = 0, and `pos_y = 2` gives 131 for x = 11: `set_bit` shifts by 91 or by -36 | a clamp to the 8 rows of the matrix, [0, 7] | high, not executed | MotionFilter.DisplayRowAsWritten, MotionFilter.DisplayRowOutOfRange, MotionFilter.DisplayRowAsWrittenEscapes | MotionFilter.DisplayRow, MotionFilter.RowPoints |
