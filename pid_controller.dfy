/** `ctrl::pid_controller`: gains, a target, an integral accumulator, the
    previous error and time, and a first-sample flag. `double` is modelled
    as `real`; a `dura_t` argument is a Quantity whose exponents are those
    of a duration. */
module Pid {
  import opened Quantities

  /** The whole state of a controller, as a value. */
  datatype PidState = PidState(
    target: real, kp: real, ki: real, kd: real,
    integral: real, prevErr: real, prevTime: real, first: bool)

  /** The state of a controller made with gains kp, ki, kd and nothing
      updated yet: it is waiting for a first sample with nothing
      accumulated, so resetting it changes nothing. */
  function Fresh(kp: real, ki: real, kd: real): (r: PidState)
    ensures r.first && r.integral == 0.0 && r.prevErr == 0.0 && r.target == 0.0
    ensures r.kp == kp && r.ki == ki && r.kd == kd
    ensures Reset(r) == r
  {
    PidState(0.0, kp, ki, kd, 0.0, 0.0, 0.0, true)
  }

  /** Whether `update` may be called at time now: after the first sample
      the derivative divides by now - prev_time, so the time has to move. */
  predicate CanUpdate(s: PidState, now: real)
  {
    s.first || now != s.prevTime
  }

  /** The state `update(val, now)` leaves: the error integrated over the
      time since the last sample (none on the first), and the error and
      time recorded; the target and the gains are kept. */
  function Next(s: PidState, val: real, now: real): (r: PidState)
    ensures r.prevErr == s.target - val && r.prevTime == now && !r.first
    ensures r.target == s.target && r.kp == s.kp && r.ki == s.ki && r.kd == s.kd
    ensures s.first ==> r.integral == s.integral
    ensures !s.first ==> r.integral == s.integral + (s.target - val) * (now - s.prevTime)
  {
    var dt := if s.first then 0.0 else now - s.prevTime;
    s.(integral := s.integral + (s.target - val) * dt, prevErr := s.target - val,
       prevTime := now, first := false)
  }

  /** The state after an update, paired with the output the update returns. */
  type Update = (PidState, real)

  /** `update(val, now)`: the state after it and the output it returns.
      The first update after construction or reset has no derivative
      term and adds nothing to the integral, so from a zero integral only
      the proportional term is left; a later one adds the integral
      gathered up to now and subtracts the rate of change of the error,
      scaled by kd. */
  function Step(s: PidState, val: real, now: real): (r: Update)
    requires CanUpdate(s, now)
    ensures r.0 == Next(s, val, now)
    ensures s.first ==> r.1 == (s.target - val) * s.kp + s.integral * s.ki
    ensures s.first && s.integral == 0.0 ==> r.1 == (s.target - val) * s.kp
    ensures !s.first ==>
      r.1 == (s.target - val) * s.kp + r.0.integral * s.ki - ((s.target - val) - s.prevErr) / (now - s.prevTime) * s.kd
  {
    var dt := if s.first then 0.0 else now - s.prevTime;
    var err := s.target - val;
    var p := err * s.kp;
    var i := Next(s, val, now).integral * s.ki;
    var d := if s.first then 0.0 else -(err - s.prevErr) / dt * s.kd;
    (Next(s, val, now), p + i + d)
  }

  /** `reset()`: the integral and the previous error are zeroed and the
      controller waits for a first sample again; target, gains and the
      recorded time are kept. */
  function Reset(s: PidState): (r: PidState)
    ensures r.first && r.integral == 0.0 && r.prevErr == 0.0
    ensures r.target == s.target && r.kp == s.kp && r.ki == s.ki && r.kd == s.kd
    ensures r.prevTime == s.prevTime
  {
    s.(integral := 0.0, prevErr := 0.0, first := true)
  }

  /** After `reset` a controller answers the next sample exactly as a
      fresh one with the same target and gains does, and ends up in the
      same state, whatever it had accumulated. */
  lemma ResetIsFresh(s: PidState, val: real, now: real)
    ensures Step(Reset(s), val, now) == Step(Fresh(s.kp, s.ki, s.kd).(target := s.target), val, now)
  {
    var a := Step(Reset(s), val, now);
    var b := Step(Fresh(s.kp, s.ki, s.kd).(target := s.target), val, now);
    assert a.1 == b.1;
    assert a.0 == b.0;
  }

  /** With no error on the first sample and none on the next, the
      output is zero whatever the gains. */
  lemma ZeroError(s: PidState, t1: real, t2: real)
    requires s.first && s.integral == 0.0 && t2 != t1
    ensures var (s1, o1) := Step(s, s.target, t1);
      o1 == 0.0 && Step(s1, s.target, t2).1 == 0.0
  {
    assert 0.0 * s.kp == 0.0 && 0.0 * s.ki == 0.0 && 0.0 * t1 == 0.0;
    var s1 := Step(s, s.target, t1).0;
    assert s1.integral == 0.0 && s1.prevErr == 0.0;
    assert 0.0 * (t2 - t1) == 0.0 && 0.0 / (t2 - t1) * s.kd == 0.0;
  }

  /** With only an integral gain and a constant positive error, the
      output grows strictly from one sample to the next while time moves
      forward. */
  lemma {:induction false} IntegralGrows(s: PidState, val: real, t1: real, t2: real)
    requires !s.first && s.kp == 0.0 && s.kd == 0.0 && s.ki > 0.0
    requires s.target - val > 0.0 && s.prevTime < t1 < t2
    ensures var (s1, o1) := Step(s, val, t1);
      Step(s1, val, t2).1 > o1
  {
    var err := s.target - val;
    var s1 := Step(s, val, t1).0;
    var s2 := Step(s1, val, t2).0;
    assert s2.integral == s1.integral + err * (t2 - t1);
    var gained := err * (t2 - t1);
    assert gained > 0.0;
    assert gained * s.ki > 0.0;
    assert Step(s, val, t1).1 == s1.integral * s.ki;
    assert Step(s1, val, t2).1 == (s1.integral + gained) * s.ki;
  }

  // ---------------------------------------------------------------------
  // A run of samples

  /** The sum of err * dt over a run after its first sample: the
      rectangle rule for the integral of the error. */
  function Riemann(target: real, prevTime: real, vals: seq<real>, times: seq<real>): real
    requires |vals| == |times|
    decreases |vals|
  {
    if |vals| == 0 then 0.0
    else (target - vals[0]) * (times[0] - prevTime) + Riemann(target, times[0], vals[1..], times[1..])
  }

  /** Times strictly after t, strictly increasing. */
  predicate Increasing(t: real, times: seq<real>)
  {
    (|times| > 0 ==> t < times[0]) &&
    forall k :: 0 < k < |times| ==> times[k - 1] < times[k]
  }

  /** The state after updating with each (vals[k], times[k]) in order. */
  function Run(s: PidState, vals: seq<real>, times: seq<real>): PidState
    requires |vals| == |times| && Increasing(s.prevTime, times)
    decreases |vals|
  {
    if |vals| == 0 then s
    else
      Run(Next(s, vals[0], times[0]), vals[1..], times[1..])
  }

  /** Over a run of samples after the first, the accumulator gains
      exactly the rectangle-rule sum of err * dt and the gains and target
      stay as they were. */
  lemma {:induction false} RunIntegral(s: PidState, vals: seq<real>, times: seq<real>)
    requires |vals| == |times| && Increasing(s.prevTime, times) && !s.first
    ensures Run(s, vals, times).integral == s.integral + Riemann(s.target, s.prevTime, vals, times)
    ensures Run(s, vals, times).target == s.target && Run(s, vals, times).kp == s.kp
    ensures Run(s, vals, times).ki == s.ki && Run(s, vals, times).kd == s.kd
    decreases |vals|
  {
    if |vals| > 0 {
      var s1 := Next(s, vals[0], times[0]);
      assert Increasing(s1.prevTime, times[1..]) by {
        forall k | 0 < k < |times[1..]|
          ensures times[1..][k - 1] < times[1..][k]
        {
          assert times[k] < times[k + 1];
        }
      }
      assert s1.integral == s.integral + (s.target - vals[0]) * (times[0] - s.prevTime);
      RunIntegral(s1, vals[1..], times[1..]);
      assert Run(s, vals, times) == Run(s1, vals[1..], times[1..]);
    }
  }

  /** The values the unit tests expect, dura_t{n} being n seconds. */
  lemma TestedOutputs()
    // P only, target 100: errors 50 then 25.
    ensures var s := Fresh(1.0, 0.0, 0.0).(target := 100.0);
      var (s1, o1) := Step(s, 50.0, 1000.0);
      o1 == 50.0 && Step(s1, 75.0, 2000.0).1 == 25.0
    // PI, kp 1 and ki 0.1: 50, then 40 + 40 * 1000 * 0.1.
    ensures var s := Fresh(1.0, 0.1, 0.0).(target := 100.0);
      var (s1, o1) := Step(s, 50.0, 0.0);
      o1 == 50.0 && Step(s1, 60.0, 1000.0).1 == 4040.0
    // PD, kp 1 and kd 0.5: 50, then 30 + 20 / 1000 * 0.5.
    ensures var s := Fresh(1.0, 0.0, 0.5).(target := 100.0);
      var (s1, o1) := Step(s, 50.0, 0.0);
      o1 == 50.0 && Step(s1, 70.0, 1000.0).1 == 30.01
    // PID, kp 1, ki 0.01, kd 0.5: 50, then 40 + 400 + 0.005.
    ensures var s := Fresh(1.0, 0.01, 0.5).(target := 100.0);
      var (s1, o1) := Step(s, 50.0, 0.0);
      o1 == 50.0 && Step(s1, 60.0, 1000.0).1 == 440.005
    // Target 50, measurement 75.
    ensures Step(Fresh(1.0, 0.0, 0.0).(target := 50.0), 75.0, 0.0).1 == -25.0
    // Three samples, reset, a fourth: only the proportional term.
    ensures var s := Fresh(1.0, 0.1, 0.5).(target := 100.0);
      var s1 := Step(s, 50.0, 0.0).0;
      var s2 := Step(s1, 60.0, 1000.0).0;
      var s3 := Step(s2, 70.0, 2000.0).0;
      Step(Reset(s3), 50.0, 3000.0).1 == 50.0
  {
    var pd := Fresh(1.0, 0.0, 0.5).(target := 100.0);
    var pd1 := Step(pd, 50.0, 0.0).0;
    assert pd1.prevErr == 50.0;
    assert -(30.0 - 50.0) / 1000.0 == 0.02;
    var full := Fresh(1.0, 0.01, 0.5).(target := 100.0);
    var full1 := Step(full, 50.0, 0.0).0;
    assert full1.prevErr == 50.0;
    assert -(40.0 - 50.0) / 1000.0 == 0.01;
  }

  /** The controller object. */
  class PidController {
    var target: real
    var kp: real
    var ki: real
    var kd: real
    var integral: real
    var prevErr: real
    /** `m_prev_time`, the value of a `dura_t` in seconds. */
    var prevTime: real
    var first: bool

    function State(): PidState
      reads this
    {
      PidState(target, kp, ki, kd, integral, prevErr, prevTime, first)
    }

    /** `pid_controller()`: everything zero, waiting for a first sample. */
    constructor ()
      ensures State() == Fresh(0.0, 0.0, 0.0)
    {
      target, kp, ki, kd := 0.0, 0.0, 0.0, 0.0;
      integral, prevErr, prevTime := 0.0, 0.0, 0.0;
      first := true;
    }

    /** `pid_controller(kp, ki, kd)`: the default state with these gains. */
    constructor WithGains(kp: real, ki: real, kd: real)
      ensures State() == Fresh(kp, ki, kd)
    {
      this.target := 0.0;
      this.kp, this.ki, this.kd := kp, ki, kd;
      integral, prevErr, prevTime := 0.0, 0.0, 0.0;
      first := true;
    }

    /** `update(val, now_time)` */
    method Update(val: real, now: Quantity) returns (output: real)
      requires now.dims == Duration && CanUpdate(State(), now.v)
      modifies this
      ensures State() == Step(old(State()), val, now.v).0
      ensures output == Step(old(State()), val, now.v).1
    {
      var dt := now.v - prevTime;
      if first {
        dt := 0.0;
      }
      var err := target - val;
      var p := err * kp;
      integral := integral + err * dt;
      var i := integral * ki;
      var d := 0.0;
      if !first {
        var der := -(err - prevErr) / dt;
        d := der * kd;
      }
      prevErr := err;
      prevTime := now.v;
      first := false;
      output := p + i + d;
    }

    /** `reset()` */
    method ResetState()
      modifies this
      ensures State() == Reset(old(State()))
    {
      integral := 0.0;
      prevErr := 0.0;
      first := true;
    }

    /** `get_target()`, `get_kp()`, `get_ki()`, `get_kd()` */
    method GetTarget() returns (t: real)
      ensures t == target
    {
      t := target;
    }

    method GetKp() returns (k: real)
      ensures k == kp
    {
      k := kp;
    }

    method GetKi() returns (k: real)
      ensures k == ki
    {
      k := ki;
    }

    method GetKd() returns (k: real)
      ensures k == kd
    {
      k := kd;
    }

    method SetTarget(t: real)
      modifies this
      ensures State() == old(State()).(target := t)
    {
      target := t;
    }

    method SetKp(k: real)
      modifies this
      ensures State() == old(State()).(kp := k)
    {
      kp := k;
    }

    method SetKi(k: real)
      modifies this
      ensures State() == old(State()).(ki := k)
    {
      ki := k;
    }

    method SetKd(k: real)
      modifies this
      ensures State() == old(State()).(kd := k)
    {
      kd := k;
    }
  }
}
