/** One pass of the endless loop in `loop()`: the button block that
    switches modes, then the work of the current mode (`PIXEL_TEST`,
    `SHOW_IMU`, `SHOW_KNOB`). Buttons, knob, motion sensor and clocks are
    read by the caller and passed in; the pixel strip is modelled by the
    brightness each pixel was last set to; the knob by the value last
    written to it. */
module MainLoop {
  import opened Arduino
  import opened Frames
  import opened Numerals
  import opened LedMatrix
  import opened MotionFilter
  import opened Options

  datatype WorkState = Idle | PixelTest | ShowImu | ShowKnob

  datatype Buttons = Buttons(a: bool, b: bool, c: bool)

  // ---------------------------------------------------------------------
  // Mode switching

  /** The mode whose branch of the button block runs, if any: all three
      buttons first force `IDLE`, then A enters `SHOW_KNOB`, else B enters
      `SHOW_IMU`, else C enters `PIXEL_TEST`, each only when that mode is
      not already the current one. A branch only ever enters the mode of
      a pressed button, never `IDLE`, and one always runs when some button
      for a mode other than the current one is down. */
  function Entered(s: WorkState, p: Buttons): (r: Option<WorkState>)
    ensures r.Some? ==> (p.a && r.value == ShowKnob) || (p.b && r.value == ShowImu) ||
                        (p.c && r.value == PixelTest)
    ensures (p.a && s != ShowKnob) || (p.b && s != ShowImu) || (p.c && s != PixelTest) ==> r.Some?
  {
    var s1 := if p.a && p.b && p.c then Idle else s;
    if p.a && s1 != ShowKnob then Some(ShowKnob)
    else if p.b && s1 != ShowImu then Some(ShowImu)
    else if p.c && s1 != PixelTest then Some(PixelTest)
    else None
  }

  /** The mode after the button block: a change of mode always comes
      with the branch of the new mode, and the block never ends in `IDLE`
      unless it started there. */
  function NextState(s: WorkState, p: Buttons): (r: WorkState)
    ensures r != s ==> Entered(s, p) == Some(r)
    ensures r == Idle ==> s == Idle
  {
    match Entered(s, p)
    case Some(m) => m
    case None => if p.a && p.b && p.c then Idle else s
  }

  /** With no button down nothing changes. */
  lemma NoPress(s: WorkState)
    ensures Entered(s, Buttons(false, false, false)) == None
    ensures NextState(s, Buttons(false, false, false)) == s
  {
  }

  /** A beats B and B beats C, and a button whose mode is current is
      passed over: from `SHOW_KNOB`, A with B enters `SHOW_IMU`. */
  lemma Priority(s: WorkState, p: Buttons)
    requires !(p.a && p.b && p.c)
    ensures p.a && s != ShowKnob ==> NextState(s, p) == ShowKnob
    ensures !(p.a && s != ShowKnob) && p.b && s != ShowImu ==> NextState(s, p) == ShowImu
    ensures !(p.a && s != ShowKnob) && !(p.b && s != ShowImu) && p.c && s != PixelTest ==>
      NextState(s, p) == PixelTest
    ensures NextState(ShowKnob, Buttons(true, true, false)) == ShowImu
  {
  }

  /** The mode changes only to the mode of a pressed button, and a
      branch runs (clearing the display) exactly when the mode changes,
      except that all three buttons run the A branch even from
      `SHOW_KNOB`. */
  lemma OnlyPressedModes(s: WorkState, p: Buttons)
    ensures NextState(s, p) == s || (p.a && NextState(s, p) == ShowKnob) ||
            (p.b && NextState(s, p) == ShowImu) || (p.c && NextState(s, p) == PixelTest)
    ensures !(p.a && p.b && p.c) ==> (Entered(s, p).Some? <==> NextState(s, p) != s)
  {
  }

  /** All three buttons end the pass in `SHOW_KNOB`, not `IDLE`: the A
      branch sees the `IDLE` the first test just set and overrides it. */
  lemma AllThree(s: WorkState)
    ensures Entered(s, Buttons(true, true, true)) == Some(ShowKnob)
    ensures NextState(s, Buttons(true, true, true)) == ShowKnob
  {
  }

  // ---------------------------------------------------------------------
  // PIXEL_TEST

  /** The `static` sub-state `ws`. */
  datatype Phase = S1 | S2 | S3 | S4 | SClean

  /** The order of the sub-states: each moves on, and only S_CLEAN
      starts over at S1. */
  function NextPhase(w: Phase): (r: Phase)
    ensures r != w
    ensures (r == S1) == (w == SClean)
  {
    match w
    case S1 => S2
    case S2 => S3
    case S3 => S4
    case S4 => SClean
    case SClean => S1
  }

  /** What a phase does to the strip: S1 to S4 set pixels 2k-2 and 2k-1
      at the given brightness and leave the others, S_CLEAN switches all
      off. */
  function Apply(w: Phase, lit: map<int, int>, brightness: int): (r: map<int, int>)
    ensures w == SClean ==> r == map[]
    ensures w != SClean ==> forall k :: k in r <==> k in lit || k / 2 == PhaseIndex(w)
    ensures w != SClean ==> forall k :: k in r ==> r[k] == if k / 2 == PhaseIndex(w) then brightness else lit[k]
  {
    match w
    case S1 => lit[0 := brightness][1 := brightness]
    case S2 => lit[2 := brightness][3 := brightness]
    case S3 => lit[4 := brightness][5 := brightness]
    case S4 => lit[6 := brightness][7 := brightness]
    case SClean => map[]
  }

  /** The place of a lighting phase in the cycle, 0 for S1. */
  function PhaseIndex(w: Phase): int
    requires w != SClean
  {
    match w
    case S1 => 0
    case S2 => 1
    case S3 => 2
    case S4 => 3
  }

  /** The sub-state cycles through five phases and comes back. */
  lemma PhaseCycle(w: Phase)
    ensures NextPhase(NextPhase(NextPhase(NextPhase(NextPhase(w))))) == w
    ensures NextPhase(w) != w
    ensures NextPhase(SClean) == S1
  {
  }

  /** From a dark strip, the four lighting phases light pixels 0 to 7
      at the brightness they were given, and the fifth turns them off. */
  lemma FullCycle(b: int)
    ensures var m := Apply(S4, Apply(S3, Apply(S2, Apply(S1, map[], b), b), b), b);
      (forall k :: k in m <==> 0 <= k < 8) && (forall k :: k in m ==> m[k] == b) &&
      Apply(SClean, m, b) == map[]
  {
    var m := Apply(S4, Apply(S3, Apply(S2, Apply(S1, map[], b), b), b), b);
    assert m.Keys == {0, 1, 2, 3, 4, 5, 6, 7};
  }

  /** The `PIXEL_TEST` clock at `millis()` ms, the static timestamp being
      set on the first pass to the time of that pass, so that no time has
      gone by on it yet. */
  function PixelClock(clock: Option<UInt32>, ms: UInt32): (r: UInt32)
    ensures clock.Some? ==> r == clock.value
    ensures clock.None? ==> Elapsed(ms, r) == 0
  {
    if clock.None? then ms else clock.value
  }

  /** Whether this pass advances the sub-state: at least 200 ms since the
      last advance, measured as an unsigned difference. */
  function Due(clock: Option<UInt32>, ms: UInt32): (r: bool)
    ensures r ==> clock.Some?
    ensures clock.Some? && clock.value <= ms ==> (r <==> ms - clock.value >= 200)
    ensures clock.Some? && ms < clock.value ==> (r <==> ms - clock.value + 0x1_0000_0000 >= 200)
  {
    Elapsed(ms, PixelClock(clock, ms)) >= 200
  }

  /** A pass never advances on the first entry, nor before 200 ms have
      gone by; it does across a wrap of the millisecond counter. */
  lemma DueTiming(last: UInt32, ms: UInt32)
    ensures !Due(None, ms)
    ensures last <= ms ==> (Due(Some(last), ms) <==> ms - last >= 200)
    ensures Due(Some(0xFFFF_FF9C), 100)
  {
  }

  // ---------------------------------------------------------------------
  // SHOW_KNOB

  /** The value the knob mode shows: the knob constrained to -999 ..
      9999, which is exactly what four decimal places hold, so `print`'s
      own constraint leaves it alone and the codes read back as it. */
  lemma {:induction false} KnobShown(reading: Int32)
    ensures var v := Constrain(reading, -999, 9999);
      Shown(v, 10) == v && FromCodes(ToCodes(v, 10), 10) == v
    ensures -999 <= reading <= 9999 ==> FromCodes(ToCodes(Constrain(reading, -999, 9999), 10), 10) == reading
  {
    var v := Constrain(reading, -999, 9999);
    DecimalRange(v);
  }

  // ---------------------------------------------------------------------
  // SHOW_IMU

  /** `dt`, in seconds, from the `micros()` stamps of two passes: the
      unsigned difference in microseconds, so never negative and below
      4295 s, and across a wrap of the counter still the time that went
      by. */
  function Dt(last: UInt32, now: UInt32): (r: real)
    ensures 0.0 <= r < 4295.0
    ensures last <= now ==> r * 1000000.0 == (now - last) as real
    ensures now < last ==> r * 1000000.0 == (now - last + 0x1_0000_0000) as real
  {
    Elapsed(now, last) as real / 1000000.0
  }

  /** The cells the twelve `draw_point(x, display_y)` calls light: twelve
      consecutive cells from k on. */
  function Band(k: int): (g: seq<bool>)
    ensures |g| == CellCount
  {
    seq(CellCount, i => k <= i < k + Width)
  }

  /** The filter state after the button block: zeroed, with the offset
      seeded from a fresh sample, when B entered `SHOW_IMU`; untouched
      otherwise. The seeded axis is at rest: a tick with a sample equal to
      the seed leaves it as it is. */
  function AfterButtons(a: Axis, entered: Option<WorkState>, seed: real): (r: Axis)
    ensures entered != Some(ShowImu) ==> r == a
    ensures entered == Some(ShowImu) ==> r.lpf == seed && r.vel == 0.0 && r.pos == 0.0 && r.smooth == 0.0
    ensures entered == Some(ShowImu) ==> forall dt :: StepAxis(r, seed, dt) == r
  {
    assert forall dt :: StepAxis(Axis(0.0, 0.0, seed, 0.0), seed, dt) == Axis(0.0, 0.0, seed, 0.0) by {
      forall dt ensures StepAxis(Axis(0.0, 0.0, seed, 0.0), seed, dt) == Axis(0.0, 0.0, seed, 0.0) {
        AtRest(Axis(0.0, 0.0, seed, 0.0), dt);
      }
    }
    if entered == Some(ShowImu) then Axis(0.0, 0.0, seed, 0.0) else a
  }

  /** What a pass reads from the hardware. */
  datatype Inputs = Inputs(
    micros: UInt32, millis: UInt32, buttons: Buttons,
    seedX: real, seedY: real, rawX: real, rawY: real,
    knobPressed: bool, knob: Int32)

  /** The state `loop()` keeps across passes, with the display it
      drives. */
  class Firmware {
    const display: LedMatrix
    var state: WorkState
    var x: Axis
    var y: Axis
    var lastStamp: UInt32
    /** The statics of `PIXEL_TEST`: `ws` and `last_update_time`, the
        latter unset until the mode first runs. */
    var phase: Phase
    var pixelClock: Option<UInt32>
    /** The brightness each pixel of the strip was last set to. */
    var pixels: map<int, int>
    /** The value last written to the knob. */
    var knob: int

    /** Entry into `loop()` after `setup()`: mode `IDLE`, filters zero,
        the first `micros()` stamp taken; the knob was set to 0 and the
        strip cleared by `setup()`. */
    constructor (display: LedMatrix, start: UInt32)
      ensures this.display == display && state == Idle && lastStamp == start
      ensures x == Axis(0.0, 0.0, 0.0, 0.0) && y == Axis(0.0, 0.0, 0.0, 0.0)
      ensures phase == S1 && pixelClock == None && pixels == map[] && knob == 0
    {
      this.display := display;
      state := Idle;
      x, y := Axis(0.0, 0.0, 0.0, 0.0), Axis(0.0, 0.0, 0.0, 0.0);
      lastStamp := start;
      phase, pixelClock, pixels := S1, None, map[];
      knob := 0;
    }

    /** One pass of the loop. */
    method Tick(input: Inputs)
      modifies this, display
      ensures state == NextState(old(state), input.buttons)
      ensures lastStamp == input.micros
      ensures var entered := Entered(old(state), input.buttons);
        var dt := FilterDt(Dt(old(lastStamp), input.micros));
        var x0 := AfterButtons(old(x), entered, input.seedX);
        var y0 := AfterButtons(old(y), entered, input.seedY);
        x == (if state == ShowImu then StepAxis(x0, input.rawX, dt) else x0) &&
        y == (if state == ShowImu then StepAxis(y0, input.rawY, dt) else y0)
      ensures state == PixelTest ==>
        pixelClock == Some(if Due(old(pixelClock), input.millis) then input.millis
                           else PixelClock(old(pixelClock), input.millis)) &&
        phase == (if Due(old(pixelClock), input.millis) then NextPhase(old(phase)) else old(phase)) &&
        pixels == (if Due(old(pixelClock), input.millis)
                   then Apply(old(phase), old(pixels), Constrain(input.knob, 0, 100)) else old(pixels))
      ensures state != PixelTest ==>
        pixelClock == old(pixelClock) && phase == old(phase) && pixels == old(pixels)
      ensures knob == (if state == PixelTest then Constrain(input.knob, 0, 100)
                       else if state == ShowKnob && input.knobPressed then 0
                       else if state == ShowKnob then Constrain(input.knob, -999, 9999)
                       else old(knob))
      ensures var cleared := if Entered(old(state), input.buttons).Some? then [FullOff] else [];
        var shown := if state == ShowImu then [display.Buffer()]
                     else if state == ShowKnob && !input.knobPressed then [FullOff, display.Buffer()]
                     else [];
        display.sent == old(display.sent) + cleared + shown
      ensures state == ShowImu ==> Cells(display.Buffer()) == Band((12.0 * DisplayRow(y.pos)).Floor)
      ensures state == ShowKnob && !input.knobPressed ==>
        Cells(display.Buffer()) == Render(ToCodes(Constrain(input.knob, -999, 9999), 10))
      ensures !(state == ShowImu || (state == ShowKnob && !input.knobPressed)) ==>
        display.Buffer() == old(display.Buffer())
      ensures display.waited == old(display.waited)
    {
      var now := input.micros;
      var dt := Dt(lastStamp, now);
      lastStamp := now;
      SwitchMode(input.buttons, input.seedX, input.seedY);
      match state
      case Idle =>
      case PixelTest =>
        PixelPass(input.millis, input.knob);
      case ShowImu =>
        ImuPass(dt, input.rawX, input.rawY);
      case ShowKnob =>
        KnobPass(input.knobPressed, input.knob);
    }

    /** The button block at the top of the loop: all three buttons
        force `IDLE`, then the first pressed button whose mode is not the
        current one clears the display and enters its mode; B also resets
        the filters, seeding the offset estimates with a fresh sample. */
    method SwitchMode(p: Buttons, seedX: real, seedY: real)
      modifies this, display
      ensures state == NextState(old(state), p)
      ensures x == AfterButtons(old(x), Entered(old(state), p), seedX)
      ensures y == AfterButtons(old(y), Entered(old(state), p), seedY)
      ensures display.sent == old(display.sent) + (if Entered(old(state), p).Some? then [FullOff] else [])
      ensures display.Buffer() == old(display.Buffer()) && display.waited == old(display.waited)
      ensures lastStamp == old(lastStamp) && knob == old(knob)
      ensures phase == old(phase) && pixelClock == old(pixelClock) && pixels == old(pixels)
    {
      if p.a && p.b && p.c {
        state := Idle;
      }
      if p.a && state != ShowKnob {
        display.Clear();
        state := ShowKnob;
      } else if p.b && state != ShowImu {
        display.Clear();
        x := Axis(0.0, 0.0, seedX, 0.0);
        y := Axis(0.0, 0.0, seedY, 0.0);
        state := ShowImu;
      } else if p.c && state != PixelTest {
        display.Clear();
        state := PixelTest;
      }
    }

    /** The `PIXEL_TEST` case. */
    method PixelPass(ms: UInt32, reading: int)
      modifies this
      ensures knob == Constrain(reading, 0, 100)
      ensures pixelClock == Some(if Due(old(pixelClock), ms) then ms else PixelClock(old(pixelClock), ms))
      ensures phase == (if Due(old(pixelClock), ms) then NextPhase(old(phase)) else old(phase))
      ensures pixels == (if Due(old(pixelClock), ms) then Apply(old(phase), old(pixels), knob) else old(pixels))
      ensures state == old(state) && x == old(x) && y == old(y) && lastStamp == old(lastStamp)
    {
      if pixelClock.None? {
        pixelClock := Some(ms);
      }
      var brightness := Constrain(reading, 0, 100);
      knob := brightness;
      if Elapsed(ms, pixelClock.value) >= 200 {
        pixelClock := Some(ms);
        match phase
        case S1 =>
          pixels := pixels[0 := brightness][1 := brightness];
          phase := S2;
        case S2 =>
          pixels := pixels[2 := brightness][3 := brightness];
          phase := S3;
        case S3 =>
          pixels := pixels[4 := brightness][5 := brightness];
          phase := S4;
        case S4 =>
          pixels := pixels[6 := brightness][7 := brightness];
          phase := SClean;
        case SClean =>
          pixels := map[];
          phase := S1;
      }
    }

    /** The `SHOW_KNOB` case: a press zeroes the knob; otherwise the
        value is constrained, written back and shown. */
    method KnobPass(pressed: bool, reading: Int32)
      modifies this, display
      ensures knob == if pressed then 0 else Constrain(reading, -999, 9999)
      ensures pressed ==> display.sent == old(display.sent) && display.Buffer() == old(display.Buffer())
      ensures !pressed ==> display.sent == old(display.sent) + [FullOff, display.Buffer()]
      ensures !pressed ==> Cells(display.Buffer()) == Render(ToCodes(Constrain(reading, -999, 9999), 10))
      ensures display.waited == old(display.waited)
      ensures state == old(state) && x == old(x) && y == old(y) && lastStamp == old(lastStamp)
      ensures phase == old(phase) && pixelClock == old(pixelClock) && pixels == old(pixels)
    {
      if pressed {
        knob := 0;
      } else {
        var v := Constrain(reading, -999, 9999);
        knob := v;
        display.Clear();
        display.PrintValue(v);
      }
    }

    /** The `SHOW_IMU` case: both axes filtered with the checked time
        step, then the row under the y position drawn on a clean buffer
        and shown. */
    method ImuPass(dt: real, rawX: real, rawY: real)
      modifies this, display
      ensures x == StepAxis(old(x), rawX, FilterDt(dt)) && y == StepAxis(old(y), rawY, FilterDt(dt))
      ensures display.sent == old(display.sent) + [display.Buffer()]
      ensures Cells(display.Buffer()) == Band((12.0 * DisplayRow(y.pos)).Floor)
      ensures display.waited == old(display.waited)
      ensures state == old(state) && lastStamp == old(lastStamp) && knob == old(knob)
      ensures phase == old(phase) && pixelClock == old(pixelClock) && pixels == old(pixels)
    {
      var h := FilterDt(dt);
      x := StepAxis(x, rawX, h);
      y := StepAxis(y, rawY, h);
      var row := DisplayRow(y.pos);
      display.Clean();
      FullFrames(FullOff);
      DrawRow(row);
      display.Show();
    }

    /** The twelve `draw_point(x, display_y)` calls, x = 0 .. 11. */
    method DrawRow(row: real)
      requires 0.0 <= row <= 7.0
      modifies display
      ensures Cells(display.Buffer()) == Overlay(old(Cells(display.Buffer())), Band((12.0 * row).Floor))
      ensures display.sent == old(display.sent) && display.waited == old(display.waited)
    {
      for k := 0 to Width
        invariant forall i :: 0 <= i < CellCount ==>
          Cell(display.Buffer(), i) == (old(Cell(display.Buffer(), i)) || (12.0 * row).Floor <= i < (12.0 * row).Floor + k)
        invariant display.sent == old(display.sent) && display.waited == old(display.waited)
      {
        RowPoints(row, k);
        display.DrawPoint(k as real, row);
      }
      assert Cells(display.Buffer()) == Overlay(old(Cells(display.Buffer())), Band((12.0 * row).Floor));
    }
  }
}
