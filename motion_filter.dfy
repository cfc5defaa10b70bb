/** The per-axis motion filter of the `SHOW_IMU` mode of `loop()`: a
    low-pass estimate of the sensor offset, the high-pass remainder,
    smoothing, a deadzone, and a damped integration to velocity and
    position, then the row of the display the position is drawn in.
    `float` is modelled as `real`. */
module MotionFilter {
  import opened Arduino
  import opened Frames
  import opened LedMatrix

  const LpfAlpha := 0.98
  const SmoothingAlpha := 0.3
  const Deadzone := 0.01
  const VelocityThreshold := 0.001
  const PositionScale := 5.0
  const Gravity := 9.81
  /** The time step used when the measured one is implausible. */
  const DefaultDt := 0.02

  /** The filter variables of one axis: `vel_*`, `pos_*`, `acc_*_lpf`,
      `acc_*_smooth`. */
  datatype Axis = Axis(vel: real, pos: real, lpf: real, smooth: real)

  function Abs(x: real): (r: real)
    ensures r >= 0.0 && (r == x || r == -x)
  {
    if x < 0.0 then -x else x
  }

  /** The time step the filter integrates with: the measured one when it
      lies in [0.001, 0.1] seconds, 0.02 otherwise. */
  function FilterDt(dt: real): (r: real)
    ensures 0.001 <= r <= 0.1
    ensures (r == dt) == (0.001 <= dt <= 0.1)
    ensures !(0.001 <= dt <= 0.1) ==> r == DefaultDt
  {
    if dt > 0.1 || dt < 0.001 then DefaultDt else dt
  }

  /** The offset estimate after a sample: 98 % old estimate, 2 % sample.
      It lies between the old estimate and the sample, and what the
      high-pass keeps is 98 % of the sample's distance from the old
      estimate. */
  function LowPass(a: Axis, raw: real): (r: real)
    ensures a.lpf <= raw ==> a.lpf <= r <= raw
    ensures raw <= a.lpf ==> raw <= r <= a.lpf
    ensures raw - r == 0.98 * (raw - a.lpf)
  {
    LpfAlpha * a.lpf + (1.0 - LpfAlpha) * raw
  }

  /** The smoothed motion after a sample: 30 % old value, 70 % of the
      sample minus the new offset estimate. A sample equal to the old
      estimate only lets the smoothed value decay. */
  function Smooth(a: Axis, raw: real): (r: real)
    ensures r == 0.3 * a.smooth + 0.7 * 0.98 * (raw - a.lpf)
    ensures raw == a.lpf ==> r == 0.3 * a.smooth
  {
    SmoothingAlpha * a.smooth + (1.0 - SmoothingAlpha) * (raw - LowPass(a, raw))
  }

  /** The acceleration in g after the deadzone. */
  function Accel(smooth: real): (acc: real)
    ensures acc == 0.0 || Abs(acc) > Deadzone
    ensures Abs(smooth) > Deadzone ==> acc == smooth
    ensures Abs(smooth) <= Deadzone ==> acc == 0.0
  {
    if Abs(smooth) > Deadzone then smooth else 0.0
  }

  /** The velocity after integrating and damping: below the velocity
      threshold it decays by 10 %, above it by 1 %. Damping never speeds
      up and never reverses: the damped velocity has the sign of the
      undamped one and a smaller magnitude unless both are zero. */
  function Damp(v: real): (r: real)
    ensures Abs(r) <= Abs(v)
    ensures v > 0.0 ==> r > 0.0
    ensures v < 0.0 ==> r < 0.0
    ensures v == 0.0 <==> r == 0.0
    ensures v != 0.0 ==> Abs(r) < Abs(v)
  {
    if Abs(v) < VelocityThreshold then v * 0.9 else v * 0.99
  }

  /** One tick of one axis with the sample raw and the time step dt: the
      estimates are updated, the velocity picks up the acceleration only
      outside the deadzone, and the position moves by the new velocity. */
  function StepAxis(a: Axis, raw: real, dt: real): (r: Axis)
    ensures r.lpf == LowPass(a, raw) && r.smooth == Smooth(a, raw)
    ensures Abs(r.smooth) > Deadzone ==> r.vel == Damp(a.vel + r.smooth * Gravity * dt)
    ensures r.pos == a.pos + r.vel * dt
  {
    var lpf := LowPass(a, raw);
    var smooth := Smooth(a, raw);
    var vel := Damp(a.vel + Accel(smooth) * Gravity * dt);
    Axis(vel, a.pos + vel * dt, lpf, smooth)
  }

  /** When the offset estimate equals the sample and the axis is still,
      a tick changes nothing: a sensor at rest with its offset learnt
      does not drift. */
  lemma {:induction false} AtRest(a: Axis, dt: real)
    requires a.smooth == 0.0 && a.vel == 0.0
    ensures StepAxis(a, a.lpf, dt) == a
  {
    assert LowPass(a, a.lpf) == a.lpf;
    assert Smooth(a, a.lpf) == 0.0;
    assert Accel(0.0) * Gravity * dt == 0.0;
    assert Damp(0.0) == 0.0;
    assert 0.0 * dt == 0.0;
  }

  /** Readings within the deadzone do not move the axis beyond what its
      velocity already does. */
  lemma {:induction false} DeadzoneHolds(a: Axis, raw: real, dt: real)
    requires Abs(Smooth(a, raw)) <= Deadzone
    ensures StepAxis(a, raw, dt).vel == Damp(a.vel)
    ensures StepAxis(a, raw, dt).pos == a.pos + Damp(a.vel) * dt
  {
    assert Accel(Smooth(a, raw)) == 0.0;
    assert 0.0 * Gravity * dt == 0.0;
  }

  // ---------------------------------------------------------------------
  // The display row

  /** `display_y` as written: five times the position, constrained to
      [-50, 50]. */
  function DisplayRowAsWritten(posY: real): (y: real)
    ensures -50.0 <= y <= 50.0
    ensures -50.0 <= posY * PositionScale <= 50.0 ==> y == posY * PositionScale
    ensures posY * PositionScale < -50.0 ==> y == -50.0
    ensures posY * PositionScale > 50.0 ==> y == 50.0
  {
    ConstrainReal(posY * PositionScale, -50.0, 50.0)
  }

  /** `display_y` constrained to the rows the display has. */
  function DisplayRow(posY: real): (y: real)
    ensures 0.0 <= y <= 7.0
    ensures 0.0 <= posY * PositionScale <= 7.0 ==> y == posY * PositionScale
    ensures posY * PositionScale < 0.0 ==> y == 0.0
    ensures posY * PositionScale > 7.0 ==> y == 7.0
  {
    ConstrainReal(posY * PositionScale, 0.0, 7.0)
  }

  /** With the constraint as written, `draw_point(x, display_y)` is asked
      for cells that do not exist: a position of -1 puts column 0 at
      index -60, and a position of 2 puts column 11 at index 131. */
  lemma DisplayRowOutOfRange()
    ensures PointIndex(0.0, DisplayRowAsWritten(-1.0)) == -60
    ensures PointIndex(11.0, DisplayRowAsWritten(2.0)) == 131
  {
    assert DisplayRowAsWritten(-1.0) == -5.0;
    assert DisplayRowAsWritten(2.0) == 10.0;
  }

  /** Every position of -0.02 or less, and every position past row 8,
      does so. Positions in (-1/60, 0) are drawn at a negative row, which
      truncation toward zero turns into cells 0, 0, 1, ..., 10 of row 0:
      see NearZeroRow. */
  lemma {:induction false} DisplayRowAsWrittenEscapes(posY: real)
    requires posY <= -0.02 || posY >= 1.6
    ensures PointIndex(0.0, DisplayRowAsWritten(posY)) < 0 ||
            PointIndex(0.0, DisplayRowAsWritten(posY)) >= CellCount
  {
    var y := DisplayRowAsWritten(posY);
    if posY <= -0.02 {
      assert y * 12.0 <= -1.2;
    } else {
      assert y >= 8.0;
    }
  }

  /** Just below zero the constraint as written draws a defined but
      different row: at a position of -0.01 the twelve points fall on cells
      0, 0, 1, ..., 10, so cell 11 stays dark, where the corrected
      constraint draws cells 0 to 11. */
  lemma NearZeroRow()
    ensures DisplayRowAsWritten(-0.01) == -0.05 && DisplayRow(-0.01) == 0.0
    ensures PointIndex(0.0, DisplayRowAsWritten(-0.01)) == 0
    ensures PointIndex(1.0, DisplayRowAsWritten(-0.01)) == 0
    ensures PointIndex(11.0, DisplayRowAsWritten(-0.01)) == 10
    ensures PointIndex(11.0, DisplayRow(-0.01)) == 11
  {
  }

  /** For a row y in [0, 7], as the corrected constraint gives, the
      twelve points of the row are cells: `trunc(12 y + x)` is
      `floor(12 y) + x`, between 0 and 95. */
  lemma {:induction false} RowPoints(y: real, x: int)
    requires 0.0 <= y <= 7.0 && 0 <= x < Width
    ensures PointIndex(x as real, y) == (12.0 * y).Floor + x
    ensures 0 <= PointIndex(x as real, y) < CellCount
  {
    var k := (12.0 * y).Floor;
    assert k as real <= 12.0 * y < k as real + 1.0;
    assert 0 <= k <= 84;
    assert (y * 12.0 + x as real).Floor == k + x;
  }
}
