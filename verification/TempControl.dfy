/**
The die temperature loop (`temp_control.py`): a positional PI with output clamping and
conditional integration, and the controller around it, whose fan writes carry a lease.
Python's floats are reals here.
*/
module TempControl {
  import opened Wrappers
  import RegisterAccess

  function Clamp(x: real, lo: real, hi: real): real
    requires lo <= hi
  {
    var floored := if lo < x then x else lo;
    if floored < hi then floored else hi
  }

  function Abs(x: real): real {
    if x < 0.0 then -x else x
  }

  // ---- the control law -------------------------------------------------------------------

  datatype Gains = Gains(kp: real, ki: real, lo: real, hi: real)

  /** The limits make a range, and the gains are not negative (`_apply` sees to that). */
  predicate Proper(g: Gains) {
    g.lo < g.hi && 0.0 <= g.kp && 0.0 <= g.ki
  }

  /** The integrator once a sample is in, with `p` the proportional part and `move` the
      integral step: it moves unless the output is at a limit and the error pushes it further. */
  function Integrate(lo: real, hi: real, i: real, p: real, move: real, error: real): real
    requires lo <= hi
  {
    var held := (p + i + move > hi && error > 0.0) || (p + i + move < lo && error < 0.0);
    Clamp(if held then i else i + move, lo, hi)
  }

  function P(g: Gains, error: real): real {
    g.kp * error
  }

  function Move(g: Gains, error: real, dt: real): real {
    g.ki * error * dt
  }

  function NextI(g: Gains, i: real, error: real, dt: real): real
    requires g.lo <= g.hi
  {
    Integrate(g.lo, g.hi, i, P(g, error), Move(g, error, dt), error)
  }

  function Output(g: Gains, i: real, error: real): real
    requires g.lo <= g.hi
  {
    Clamp(P(g, error) + i, g.lo, g.hi)
  }

  datatype Saturation = High | Low | Free

  class PI {
    var gains: Gains
    var i: real
    var p: real
    var uRaw: real

    ghost predicate Valid()
      reads this
    {
      gains.lo <= gains.hi && gains.lo <= i <= gains.hi
    }

    constructor (gains: Gains)
      requires gains.lo <= gains.hi
      ensures Valid() && this.gains == gains && i == gains.lo
    {
      this.gains, i, p, uRaw := gains, gains.lo, 0.0, gains.lo;
    }

    method Reset(output: real, error: real)
      requires Valid()
      modifies this
      ensures Valid() && gains == old(gains)
      ensures gains.lo <= output - P(gains, error) <= gains.hi ==> P(gains, error) + i == output
      ensures i == Clamp(output - P(gains, error), gains.lo, gains.hi)
    {
      var start := output - P(gains, error);
      i := if gains.lo < start then start else gains.lo;
      i := if i < gains.hi then i else gains.hi;
    }

    /** Integrate only when it does not push the output further into a limit. */
    method Conditional(move: real, error: real)
      requires Valid()
      modifies this`i
      ensures i == Integrate(gains.lo, gains.hi, old(i), p, move, error)
    {
      var iNew := i + move;
      var uNew := p + iNew;
      if !((uNew > gains.hi && error > 0.0) || (uNew < gains.lo && error < 0.0)) {
        i := iNew;
      }
      i := if gains.lo < i then i else gains.lo;
      i := if i < gains.hi then i else gains.hi;
    }

    method Step(error: real, dt: real) returns (u: real)
      requires Valid()
      modifies this
      ensures Valid() && gains == old(gains)
      ensures i == NextI(gains, old(i), error, dt)
      ensures p == P(gains, error) && uRaw == p + i
      ensures u == Output(gains, i, error) && gains.lo <= u <= gains.hi
    {
      p := P(gains, error);
      var move := Move(gains, error, dt);
      Conditional(move, error);
      uRaw := p + i;
      u := if gains.lo < uRaw then uRaw else gains.lo;
      u := if u < gains.hi then u else gains.hi;
    }

    /** Asked after a sample with this error: at a limit the output is there, and the integrator
        stands still for as long as the error stays; free, the output is the raw one wherever
        the error pushes it. */
    method SaturatedAt(error: real) returns (s: Saturation)
      requires Valid()
      ensures Proper(gains) && uRaw == P(gains, error) + i ==>
                && (s != Free ==> forall dt: real | dt >= 0.0 :: NextI(gains, i, error, dt) == i)
                && (s == High ==> error > 0.0 && Output(gains, i, error) == gains.hi)
                && (s == Low ==> error < 0.0 && Output(gains, i, error) == gains.lo)
                && (s == Free && error > 0.0 ==> P(gains, error) + i <= gains.hi)
                && (s == Free && error < 0.0 ==> P(gains, error) + i >= gains.lo)
    {
      forall dt: real | Proper(gains) && dt >= 0.0
        ensures error > 0.0 ==> Move(gains, error, dt) >= 0.0
        ensures error < 0.0 ==> Move(gains, error, dt) <= 0.0
      {
        MoveSign(gains.ki, error, dt);
      }
      if uRaw > gains.hi && error > 0.0 {
        return High;
      }
      if uRaw < gains.lo && error < 0.0 {
        return Low;
      }
      return Free;
    }
  }

  // ---- properties of the law -------------------------------------------------------------

  /** The integrator after a history of (error, dt). */
  function After(g: Gains, i: real, history: seq<(real, real)>): real
    requires g.lo <= g.hi
  {
    if history == [] then i
    else NextI(g, After(g, i, history[..|history| - 1]), history[|history| - 1].0, history[|history| - 1].1)
  }

  /** No wind-up. Whatever the errors were, integrator and output are in range,
      and as soon as the error turns, the output leaves the limit by at least the
      proportional part. */
  lemma NoWindup(g: Gains, i: real, history: seq<(real, real)>, error: real, dt: real)
    requires Proper(g) && g.lo <= i <= g.hi
    ensures var n := NextI(g, After(g, i, history), error, dt);
            && g.lo <= After(g, i, history) <= g.hi && g.lo <= n <= g.hi
            && g.lo <= Output(g, n, error) <= g.hi
            && (error < 0.0 ==> P(g, error) + n <= g.hi + P(g, error) <= g.hi)
            && (error > 0.0 ==> P(g, error) + n >= g.lo + P(g, error) >= g.lo)
  {
    if error < 0.0 {
      ProductSign(g.kp, -error);
    } else {
      ProductSign(g.kp, error);
    }
  }

  lemma ProductSign(a: real, b: real)
    requires 0.0 <= a && 0.0 <= b
    ensures 0.0 <= a * b && a * -b == -(a * b)
  {
  }

  lemma ClampIsNear(x: real, y: real, lo: real, hi: real)
    requires lo <= hi
    ensures Abs(Clamp(x, lo, hi) - Clamp(y, lo, hi)) <= Abs(x - y)
  {
  }

  /** Main result: bumpless. The step after a reset to `output` changes it by at most one
      integrator step, if the integrator that it asks for is in range. */
  lemma BumplessReset(g: Gains, output: real, error: real, dt: real)
    requires Proper(g) && 0.0 <= dt
    requires g.lo <= output <= g.hi && g.lo <= output - P(g, error) <= g.hi
    ensures var i := Clamp(output - P(g, error), g.lo, g.hi);
            Abs(Output(g, NextI(g, i, error, dt), error) - output) <= g.ki * Abs(error) * dt
  {
    MoveSize(g.ki, error, dt);
    assert Move(g, error, dt) == g.ki * error * dt;
    OneSmallStep(g.lo, g.hi, output, P(g, error), Move(g, error, dt), error);
  }

  lemma OneSmallStep(lo: real, hi: real, output: real, p: real, move: real, error: real)
    requires lo <= output <= hi && lo <= output - p <= hi
    ensures Clamp(output - p, lo, hi) == output - p
    ensures Abs(Clamp(p + Integrate(lo, hi, output - p, p, move, error), lo, hi) - output) <= Abs(move)
  {
    ClampIsNear(output - p + move, output - p, lo, hi);
    var n := Integrate(lo, hi, output - p, p, move, error);
    ClampIsNear(p + n, output, lo, hi);
  }

  lemma MoveSize(ki: real, error: real, dt: real)
    requires 0.0 <= ki && 0.0 <= dt
    ensures Abs(ki * error * dt) == ki * Abs(error) * dt
    ensures 0.0 <= ki * Abs(error) * dt
  {
    var e := Abs(error);
    ProductSign(ki, e);
    ProductSign(ki * e, dt);
    if error < 0.0 {
      assert ki * error == -(ki * e);
      assert (-(ki * e)) * dt == -((ki * e) * dt);
    }
  }

  lemma MoveSign(ki: real, error: real, dt: real)
    requires 0.0 <= ki && 0.0 <= dt
    ensures error >= 0.0 ==> ki * error * dt >= 0.0
    ensures error <= 0.0 ==> ki * error * dt <= 0.0
  {
    if error >= 0.0 {
      ProductSign(ki, error);
      ProductSign(ki * error, dt);
    } else {
      ProductSign(ki, -error);
      ProductSign(ki * -error, dt);
      assert ki * error == -(ki * -error);
      assert (-(ki * -error)) * dt == -((ki * -error) * dt);
    }
  }

  /** The integrator after n samples of one error. */
  function Held(lo: real, hi: real, i: real, p: real, move: real, error: real, n: nat): real
    requires lo <= hi
  {
    if n == 0 then i else Integrate(lo, hi, Held(lo, hi, i, p, move, error, n - 1), p, move, error)
  }

  function HeldI(g: Gains, i: real, error: real, dt: real, n: nat): real
    requires g.lo <= g.hi
  {
    Held(g.lo, g.hi, i, P(g, error), Move(g, error, dt), error, n)
  }

  function HeldOutput(g: Gains, i: real, error: real, dt: real, n: nat): real
    requires g.lo <= g.hi
  {
    Output(g, HeldI(g, i, error, dt, n), error)
  }

  /** A history of n samples with the same error leads there. */
  lemma {:induction false} HeldIsHistory(g: Gains, i: real, error: real, dt: real, n: nat)
    requires g.lo <= g.hi
    ensures After(g, i, seq(n, _ => (error, dt))) == HeldI(g, i, error, dt, n)
  {
    var history := seq(n, _ => (error, dt));
    if n > 0 {
      HeldIsHistory(g, i, error, dt, n - 1);
      assert history[..n - 1] == seq(n - 1, _ => (error, dt));
    }
  }

  lemma OneClimb(lo: real, hi: real, h: real, p: real, move: real, error: real)
    requires lo <= h <= hi && 0.0 <= p && 0.0 <= move && 0.0 < error
    ensures Integrate(lo, hi, h, p, move, error) == (if p + h + move > hi then h else h + move) <= hi
  {
  }

  /** With a positive error the integrator climbs by a whole step or stands still for good. */
  lemma {:induction false} Climb(lo: real, hi: real, i: real, p: real, move: real, error: real, n: nat)
    requires lo <= i <= hi && 0.0 <= p && 0.0 <= move && 0.0 < error
    ensures var h := Held(lo, hi, i, p, move, error, n);
            && lo <= h <= hi
            && Integrate(lo, hi, h, p, move, error) == (if p + h + move > hi then h else h + move)
            && (p + h + move > hi || h == i + n as real * move)
  {
    if n > 0 {
      Climb(lo, hi, i, p, move, error, n - 1);
      assert (n - 1) as real * move + move == n as real * move;
      OneClimb(lo, hi, Held(lo, hi, i, p, move, error, n - 1), p, move, error);
    }
    OneClimb(lo, hi, Held(lo, hi, i, p, move, error, n), p, move, error);
  }

  lemma {:induction false} StandsStill(lo: real, hi: real, i: real, p: real, move: real, error: real, n: nat, m: nat)
    requires lo <= hi && n <= m
    requires Held(lo, hi, i, p, move, error, n + 1) == Held(lo, hi, i, p, move, error, n)
    ensures Held(lo, hi, i, p, move, error, m) == Held(lo, hi, i, p, move, error, n)
  {
    if n < m {
      StandsStill(lo, hi, i, p, move, error, n, m - 1);
    }
  }

  lemma Settles(lo: real, hi: real, i: real, p: real, move: real, error: real, n: nat, m: nat)
    requires lo <= i <= hi && 0.0 <= p && 0.0 < move && 0.0 < error
    requires n as real * move >= hi - lo && n <= m
    ensures p + Held(lo, hi, i, p, move, error, n) + move > hi
    ensures Held(lo, hi, i, p, move, error, m) == Held(lo, hi, i, p, move, error, n)
  {
    Climb(lo, hi, i, p, move, error, n);
    StandsStill(lo, hi, i, p, move, error, n, m);
  }

  /** A constant positive error never lets the output fall. */
  lemma RisesMonotonically(g: Gains, i: real, error: real, dt: real, n: nat)
    requires Proper(g) && g.lo <= i <= g.hi && error > 0.0 && dt >= 0.0
    ensures HeldOutput(g, i, error, dt, n) <= HeldOutput(g, i, error, dt, n + 1)
  {
    ProductSign(g.kp, error);
    MoveSign(g.ki, error, dt);
    Climb(g.lo, g.hi, i, P(g, error), Move(g, error, dt), error, n);
  }

  /** Main result: a constant positive error drives the output up, never down, to within one
      step of the upper limit after at most ceil((hi - lo) / step) samples, where it stays. */
  lemma ReachesUpperLimit(g: Gains, i: real, error: real, dt: real, n: nat, m: nat)
    requires Proper(g) && g.lo <= i <= g.hi && error > 0.0 && Move(g, error, dt) > 0.0
    requires n as real * (Move(g, error, dt)) >= g.hi - g.lo && n <= m
    ensures HeldOutput(g, i, error, dt, n) > g.hi - Move(g, error, dt)
    ensures HeldOutput(g, i, error, dt, m) == HeldOutput(g, i, error, dt, n)
  {
    ProductSign(g.kp, error);
    Settles(g.lo, g.hi, i, P(g, error), Move(g, error, dt), error, n, m);
  }

  lemma {:induction false} MirrorHeld(lo: real, hi: real, i: real, p: real, move: real, error: real, n: nat)
    requires lo <= hi
    ensures Held(-hi, -lo, -i, -p, -move, -error, n) == -Held(lo, hi, i, p, move, error, n)
  {
    if n > 0 {
      MirrorHeld(lo, hi, i, p, move, error, n - 1);
    }
  }

  function Mirror(g: Gains): Gains {
    Gains(g.kp, g.ki, -g.hi, -g.lo)
  }

  lemma MirrorProducts(g: Gains, error: real, dt: real)
    ensures P(Mirror(g), -error) == -P(g, error) && Move(Mirror(g), -error, dt) == -Move(g, error, dt)
    ensures Move(g, -error, dt) == -Move(g, error, dt)
  {
    assert g.ki * -error == -(g.ki * error);
    assert (-(g.ki * error)) * dt == -(g.ki * error * dt);
  }

  /** The law is the same upside down: mirrored limits, integrator and error give the mirrored
      output. */
  lemma MirrorOutput(g: Gains, i: real, error: real, dt: real, n: nat)
    requires g.lo <= g.hi
    ensures HeldOutput(Mirror(g), -i, -error, dt, n) == -HeldOutput(g, i, error, dt, n)
  {
    MirrorProducts(g, error, dt);
    MirrorHeld(g.lo, g.hi, i, P(g, error), Move(g, error, dt), error, n);
  }

  lemma FallsMonotonically(g: Gains, i: real, error: real, dt: real, n: nat)
    requires Proper(g) && g.lo <= i <= g.hi && error < 0.0 && dt >= 0.0
    ensures HeldOutput(g, i, error, dt, n) >= HeldOutput(g, i, error, dt, n + 1)
  {
    MirrorProducts(g, error, dt);
    RisesMonotonically(Mirror(g), -i, -error, dt, n);
    MirrorOutput(g, i, error, dt, n);
    MirrorOutput(g, i, error, dt, n + 1);
  }

  /** The mirror claim: a constant negative error drives the output to within one step of the
      lower limit, where it stays. */
  lemma ReachesLowerLimit(g: Gains, i: real, error: real, dt: real, n: nat, m: nat)
    requires Proper(g) && g.lo <= i <= g.hi && error < 0.0 && Move(g, -error, dt) > 0.0
    requires n as real * (Move(g, -error, dt)) >= g.hi - g.lo && n <= m
    ensures HeldOutput(g, i, error, dt, n) < g.lo + Move(g, -error, dt)
    ensures HeldOutput(g, i, error, dt, m) == HeldOutput(g, i, error, dt, n)
  {
    MirrorProducts(g, error, dt);
    ReachesUpperLimit(Mirror(g), -i, -error, dt, n, m);
    MirrorOutput(g, i, error, dt, n);
    MirrorOutput(g, i, error, dt, m);
  }

  // ---- the controller --------------------------------------------------------------------

  const FAN_MIN_DUTY: int := 30
  const FAN_MAX_DUTY: int := 255
  const LEASE_S: real := 10.0
  const SENSOR_FAULT_SAMPLES: nat := 5

  /** round(): to the nearest integer, ties to the even one. */
  function Round(x: real): int {
    var down := x.Floor;
    var rest := x - down as real;
    if rest < 0.5 || (rest == 0.5 && down % 2 == 0) then down else down + 1
  }

  /** round(x, 2) */
  function RoundToCents(x: real): real {
    Round(100.0 * x) as real / 100.0
  }

  lemma RoundStaysInRange(x: real, lo: int, hi: int)
    requires lo as real <= x <= hi as real
    ensures lo <= Round(x) <= hi
  {
  }

  datatype Mode = Auto | Manual | Off

  datatype Settings = Settings(mode: Mode, setpoint: real, manualDuty: int, kp: real, ki: real)

  /** A request to change settings; what it leaves out stays. */
  datatype Change = Change(mode: Option<Mode>, setpoint: Option<real>, manualDuty: Option<int>,
                           kp: Option<real>, ki: Option<real>)

  function Or<T>(o: Option<T>, old_: T): T {
    if o.Some? then o.value else old_
  }

  predicate Acceptable(c: Change) {
    && (c.setpoint.Some? ==> 25.0 <= c.setpoint.value <= 85.0)
    && (c.manualDuty.Some? ==> 0 <= c.manualDuty.value <= 255)
    && (c.kp.Some? ==> 0.0 <= c.kp.value <= 1000.0)
    && (c.ki.Some? ==> 0.0 <= c.ki.value <= 1000.0)
  }

  function Floor30(d: int): int {
    if d < FAN_MIN_DUTY then FAN_MIN_DUTY else d
  }

  /** What the controller remembers from one sample to the next. */
  datatype Ctl = Ctl(cfg: Settings, i: real, needReset: bool, sensorFails: nat)

  function GainsOf(cfg: Settings): Gains {
    Gains(cfg.kp, cfg.ki, FAN_MIN_DUTY as real, FAN_MAX_DUTY as real)
  }

  predicate Sane(c: Ctl) {
    && 0.0 <= c.cfg.kp && 0.0 <= c.cfg.ki && FAN_MIN_DUTY <= c.cfg.manualDuty <= FAN_MAX_DUTY
    && FAN_MIN_DUTY as real <= c.i <= FAN_MAX_DUTY as real
  }

  /** A write to the fan, and the lease that it carries. */
  datatype FanWrite = FanWrite(duty: int, lease: real)

  /** The duty that the law asks for, from the duty in the register if it was not running. */
  function Regulated(c: Ctl, dt: real, error: real, register: nat): (Ctl, FanWrite) {
    var g := GainsOf(c.cfg);
    var start := if c.needReset then Clamp(register as real - P(g, error), g.lo, g.hi) else c.i;
    var i := NextI(g, start, error, dt);
    (c.(i := i, needReset := false), FanWrite(Round(Output(g, i, error)), LEASE_S))
  }

  /** The duty without a die temperature. */
  function Unmeasured(sensorFails: nat, register: nat): int {
    if sensorFails >= SENSOR_FAULT_SAMPLES && register < RegisterAccess.SAFE_FAN_DUTY
    then RegisterAccess.SAFE_FAN_DUTY else register
  }

  function Sampled(c: Ctl, dt: real, measured: Option<real>, register: Option<nat>): (Ctl, Option<FanWrite>) {
    var fails := if measured.Some? then 0 else c.sensorFails + 1;
    var waiting := c.(sensorFails := fails, needReset := true);
    if register.None? || c.cfg.mode == Off then (waiting, None)
    else if c.cfg.mode == Manual then (waiting, Some(FanWrite(c.cfg.manualDuty, LEASE_S)))
    else if measured.None? then (waiting, Some(FanWrite(Unmeasured(fails, register.value), LEASE_S)))
    else
      var (next, write) := Regulated(c.(sensorFails := 0), dt, measured.value - c.cfg.setpoint, register.value);
      (next, Some(write))
  }

  /** New settings, and whether the fan's lease is to be released. */
  function Applied(c: Ctl, change: Change): (Ctl, bool) {
    if !Acceptable(change) then (c, false)
    else
      var cfg := Changed(c.cfg, change);
      (c.(cfg := cfg,
          needReset := c.needReset || (cfg.mode == Auto && (c.cfg.mode != Auto || cfg.kp != c.cfg.kp))),
       cfg.mode == Off && c.cfg.mode != Off)
  }

  function Changed(was: Settings, c: Change): Settings {
    Settings(Or(c.mode, was.mode),
             if c.setpoint.Some? then RoundToCents(c.setpoint.value) else was.setpoint,
             if c.manualDuty.Some? then Floor30(c.manualDuty.value) else was.manualDuty,
             Or(c.kp, was.kp), Or(c.ki, was.ki))
  }

  /** Each setting that a change names takes its value, the setpoint to the nearest hundredth and
      the manual duty from 30 on; the others stay. */
  predicate Takes(next: Settings, was: Settings, c: Change) {
    && next.mode == (if c.mode.Some? then c.mode.value else was.mode)
    && next.kp == (if c.kp.Some? then c.kp.value else was.kp)
    && next.ki == (if c.ki.Some? then c.ki.value else was.ki)
    && (c.setpoint.None? ==> next.setpoint == was.setpoint)
    && (c.setpoint.Some? ==> -0.005 <= next.setpoint - c.setpoint.value <= 0.005)
    && (c.manualDuty.None? ==> next.manualDuty == was.manualDuty)
    && (c.manualDuty.Some? ==> c.manualDuty.value <= next.manualDuty && FAN_MIN_DUTY <= next.manualDuty
                               && next.manualDuty in {c.manualDuty.value, FAN_MIN_DUTY})
  }

  /** The settings begin automatic control, or give it another gain. */
  predicate Restarts(was: Settings, next: Settings) {
    next.mode == Auto && (was.mode != Auto || next.kp != was.kp)
  }

  /** Sampling and new settings keep the controller sane, and whatever it writes is a duty. */
  lemma StaysSane(c: Ctl, dt: real, measured: Option<real>, register: Option<nat>, change: Change)
    requires Sane(c) && (register.Some? ==> register.value < 256)
    ensures var (next, write) := Sampled(c, dt, measured, register);
            && Sane(next) && next.cfg == c.cfg
            && (write.Some? ==> 0 <= write.value.duty <= FAN_MAX_DUTY && write.value.lease == LEASE_S)
            && (write.Some? && (measured.Some? || c.cfg.mode == Manual) ==> FAN_MIN_DUTY <= write.value.duty)
            && (write.Some? <==> register.Some? && c.cfg.mode != Off)
    ensures Sane(Applied(c, change).0)
  {
    if register.Some? && measured.Some? {
      var error := measured.value - c.cfg.setpoint;
      var (next, write) := Regulated(c.(sensorFails := 0), dt, error, register.value);
      RoundStaysInRange(Output(GainsOf(c.cfg), next.i, error), FAN_MIN_DUTY, FAN_MAX_DUTY);
    }
  }

  class Controller {
    var cfg: Settings
    const pi: PI
    var needReset: bool
    var sensorFails: nat

    ghost predicate Valid()
      reads this, pi
    {
      && pi.Valid() && Proper(pi.gains)
      && pi.gains == GainsOf(cfg)
      && FAN_MIN_DUTY <= cfg.manualDuty <= FAN_MAX_DUTY
    }

    constructor (cfg: Settings)
      requires 0.0 <= cfg.kp && 0.0 <= cfg.ki && FAN_MIN_DUTY <= cfg.manualDuty <= FAN_MAX_DUTY
      ensures Valid() && fresh(pi) && this.cfg == cfg && needReset
    {
      this.cfg := cfg;
      pi := new PI(GainsOf(cfg));
      needReset, sensorFails := true, 0;
    }

    ghost function C(): Ctl
      reads this, pi
    {
      Ctl(cfg, pi.i, needReset, sensorFails)
    }

    /** New settings; `release` tells the register server to drop the fan's lease. */
    method Apply(c: Change) returns (ok: bool, release: bool)
      requires Valid()
      modifies this, pi
      ensures Valid() && (C(), release) == Applied(old(C()), c)
      ensures ok == Acceptable(c) && (!ok ==> C() == old(C()) && !release)
      ensures release ==> cfg.mode == Off
      ensures ok ==> Takes(cfg, old(cfg), c) && release == (cfg.mode == Off && old(cfg.mode) != Off)
      ensures needReset <==> old(needReset) || (ok && Restarts(old(cfg), cfg))
    {
      if !Acceptable(c) {
        return false, false;
      }
      var was := cfg;
      cfg := Changed(was, c);
      pi.gains := pi.gains.(kp := cfg.kp, ki := cfg.ki);
      if cfg.mode == Auto && (was.mode != Auto || cfg.kp != was.kp) {
        needReset := true;
      }
      return true, cfg.mode == Off && was.mode != Off;
    }

    /** The control law, started without a bump from the duty in the register. */
    method Regulate(error: real, dt: real, register: nat) returns (duty: int)
      requires Valid()
      modifies this`needReset, pi
      ensures Valid() && (C(), FanWrite(duty, LEASE_S)) == Regulated(old(C()), dt, error, register)
      ensures FAN_MIN_DUTY <= duty <= FAN_MAX_DUTY
    {
      if needReset {
        pi.Reset(register as real, error);
        needReset := false;
      }
      var u := pi.Step(error, dt);
      RoundStaysInRange(u, FAN_MIN_DUTY, FAN_MAX_DUTY);
      return Round(u);
    }

    /** One sample: `measured` is the hottest sensor, `register` the fan duty that the register
        server answered (None: it did not). The result is the write, with its lease. */
    method Sample(dt: real, measured: Option<real>, register: Option<nat>) returns (write: Option<FanWrite>)
      requires Valid() && (register.Some? ==> register.value < 256)
      modifies this, pi
      ensures Valid() && cfg == old(cfg) && (C(), write) == Sampled(old(C()), dt, measured, register)
      ensures write.Some? <==> register.Some? && cfg.mode != Off
      ensures write.Some? ==> 0 <= write.value.duty <= 255 && write.value.lease == 10.0
      ensures write.Some? && (measured.Some? || cfg.mode == Manual) ==> 30 <= write.value.duty
      ensures write.Some? && cfg.mode == Auto && sensorFails >= 5 ==> write.value.duty >= 128
      ensures write.Some? && cfg.mode == Manual ==> write.value.duty == cfg.manualDuty
      ensures write.Some? && cfg.mode == Auto && measured.None? ==>
                write.value.duty == register.value || (sensorFails >= 5 && register.value < write.value.duty == 128)
      ensures sensorFails == if measured.Some? then 0 else old(sensorFails) + 1
      ensures needReset <==> !(write.Some? && cfg.mode == Auto && measured.Some?)
    {
      StaysSane(C(), dt, measured, register, Change(None, None, None, None, None));
      sensorFails := if measured.Some? then 0 else sensorFails + 1;
      if register.None? || cfg.mode == Off {
        needReset := true;
        return None;
      }
      if cfg.mode == Manual {
        needReset := true;
        return Some(FanWrite(Floor30(cfg.manualDuty), LEASE_S));
      }
      if measured.None? {
        needReset := true;
        if sensorFails >= SENSOR_FAULT_SAMPLES {
          var safe := RegisterAccess.SAFE_FAN_DUTY;
          return Some(FanWrite(if register.value < safe then safe else register.value, LEASE_S));
        }
        return Some(FanWrite(register.value, LEASE_S));
      }
      var duty := Regulate(measured.value - cfg.setpoint, dt, register.value);
      return Some(FanWrite(duty, LEASE_S));
    }
  }

  // ---- temperatures ----------------------------------------------------------------------

  lemma RoundKeepsOrder(x: real, y: real)
    requires x <= y
    ensures Round(x) <= Round(y)
  {
  }

  /** The controller regulates, and its integrator is its own. */
  predicate Running(c: Ctl) {
    Sane(c) && c.cfg.mode == Auto && !c.needReset
  }

  /** The controller after samples of one temperature, the register server having answered these
      duties. */
  function CtlAfter(c: Ctl, dt: real, measured: real, registers: seq<nat>): Ctl {
    if registers == [] then c
    else
      var n := |registers| - 1;
      Sampled(CtlAfter(c, dt, measured, registers[..n]), dt, Some(measured), Some(registers[n])).0
  }

  /** The duty that the last of these samples writes. */
  function DutyAfter(c: Ctl, dt: real, measured: real, registers: seq<nat>): Option<FanWrite>
    requires registers != []
  {
    var n := |registers| - 1;
    Sampled(CtlAfter(c, dt, measured, registers[..n]), dt, Some(measured), Some(registers[n])).1
  }

  /** A sample that finds the die and the register server leaves the controller running. */
  lemma BecomesRunning(c: Ctl, dt: real, measured: real, register: nat)
    requires Sane(c) && c.cfg.mode == Auto && register < 256
    ensures Running(CtlAfter(c, dt, measured, [register]))
  {
    assert [register][..0] == [];
    StaysSane(c, dt, Some(measured), Some(register), Change(None, None, None, None, None));
  }

  /** A die held at one temperature is regulated by the law, with the excess over the setpoint as
      its error, whatever duties are read back. */
  lemma {:induction false} HeldDie(c: Ctl, dt: real, measured: real, registers: seq<nat>)
    requires Running(c)
    ensures var error := measured - c.cfg.setpoint;
            var n := |registers|;
            var f := CtlAfter(c, dt, measured, registers);
            && f == c.(i := HeldI(GainsOf(c.cfg), c.i, error, dt, n), sensorFails := f.sensorFails)
            && (n > 0 ==> DutyAfter(c, dt, measured, registers)
                          == Some(FanWrite(Round(HeldOutput(GainsOf(c.cfg), c.i, error, dt, n)), LEASE_S)))
  {
    if registers != [] {
      HeldDie(c, dt, measured, registers[..|registers| - 1]);
    }
  }

  /** The duty of the n-th sample of a held error, with proportional part p and integral step. */
  function HeldDuty(lo: real, hi: real, i: real, p: real, step: real, error: real, n: nat): int
    requires lo <= hi
  {
    Round(Clamp(p + Held(lo, hi, i, p, step, error, n), lo, hi))
  }

  /** The integrator has come so near to a limit that one more step would pass it, and stays. */
  predicate AtTop(lo: real, hi: real, i: real, p: real, step: real, error: real, n: nat, m: nat)
    requires lo <= hi
  {
    var now := Held(lo, hi, i, p, step, error, n);
    p + now + step > hi && Held(lo, hi, i, p, step, error, m) == now
  }

  predicate AtBottom(lo: real, hi: real, i: real, p: real, step: real, error: real, n: nat, m: nat)
    requires lo <= hi
  {
    var now := Held(lo, hi, i, p, -step, error, n);
    p + now - step < lo && Held(lo, hi, i, p, -step, error, m) == now
  }

  lemma MirrorSettles(lo: real, hi: real, i: real, p: real, step: real, error: real, n: nat, m: nat)
    requires lo <= i <= hi && p <= 0.0 && 0.0 < step && error < 0.0 && n <= m && n as real * step >= hi - lo
    ensures AtBottom(lo, hi, i, p, step, error, n, m)
  {
    Settles(-hi, -lo, -i, -p, step, -error, n, m);
    MirrorTop(lo, hi, i, p, step, error, n, m);
  }

  lemma MirrorTop(lo: real, hi: real, i: real, p: real, step: real, error: real, n: nat, m: nat)
    requires lo <= hi && AtTop(-hi, -lo, -i, -p, step, -error, n, m)
    ensures AtBottom(lo, hi, i, p, step, error, n, m)
  {
    MirrorHeld(lo, hi, i, p, -step, error, n);
    MirrorHeld(lo, hi, i, p, -step, error, m);
  }

  /** Between two outputs in order the duties are in order. */
  lemma DutyOrder(lo: real, hi: real, p: real, x: real, y: real)
    requires lo <= hi && x <= y
    ensures Round(Clamp(p + x, lo, hi)) <= Round(Clamp(p + y, lo, hi))
  {
    RoundKeepsOrder(Clamp(p + x, lo, hi), Clamp(p + y, lo, hi));
  }

  lemma Rising(lo: real, hi: real, i: real, p: real, step: real, error: real, n: nat)
    requires lo <= i <= hi && 0.0 <= p && 0.0 <= step && 0.0 < error
    ensures Held(lo, hi, i, p, step, error, n) <= Held(lo, hi, i, p, step, error, n + 1)
  {
    Climb(lo, hi, i, p, step, error, n);
  }

  lemma Falling(lo: real, hi: real, i: real, p: real, step: real, error: real, n: nat)
    requires lo <= i <= hi && p <= 0.0 && 0.0 <= step && error < 0.0
    ensures Held(lo, hi, i, p, -step, error, n) >= Held(lo, hi, i, p, -step, error, n + 1)
  {
    MirrorHeld(lo, hi, i, p, -step, error, n);
    MirrorHeld(lo, hi, i, p, -step, error, n + 1);
    Rising(-hi, -lo, -i, -p, step, -error, n);
  }

  lemma DutyRises(lo: real, hi: real, i: real, p: real, step: real, error: real, n: nat)
    requires lo <= i <= hi && 0.0 <= p && 0.0 <= step && 0.0 < error
    ensures HeldDuty(lo, hi, i, p, step, error, n) <= HeldDuty(lo, hi, i, p, step, error, n + 1)
  {
    Rising(lo, hi, i, p, step, error, n);
    DutyOrder(lo, hi, p, Held(lo, hi, i, p, step, error, n), Held(lo, hi, i, p, step, error, n + 1));
  }

  lemma DutyFalls(lo: real, hi: real, i: real, p: real, step: real, error: real, n: nat)
    requires lo <= i <= hi && p <= 0.0 && 0.0 <= step && error < 0.0
    ensures HeldDuty(lo, hi, i, p, -step, error, n) >= HeldDuty(lo, hi, i, p, -step, error, n + 1)
  {
    Falling(lo, hi, i, p, step, error, n);
    DutyOrder(lo, hi, p, Held(lo, hi, i, p, -step, error, n + 1), Held(lo, hi, i, p, -step, error, n));
  }

  lemma DutyAtTop(lo: real, hi: real, i: real, p: real, step: real, error: real, n: nat, m: nat)
    requires lo <= hi && 0.0 < step && AtTop(lo, hi, i, p, step, error, n, m)
    ensures HeldDuty(lo, hi, i, p, step, error, n) >= Round(hi - step)
    ensures HeldDuty(lo, hi, i, p, step, error, m) == HeldDuty(lo, hi, i, p, step, error, n)
  {
    RoundKeepsOrder(hi - step, Clamp(p + Held(lo, hi, i, p, step, error, n), lo, hi));
  }

  lemma DutyAtBottom(lo: real, hi: real, i: real, p: real, step: real, error: real, n: nat, m: nat)
    requires lo <= hi && 0.0 < step && AtBottom(lo, hi, i, p, step, error, n, m)
    ensures HeldDuty(lo, hi, i, p, -step, error, n) <= Round(lo + step)
    ensures HeldDuty(lo, hi, i, p, -step, error, m) == HeldDuty(lo, hi, i, p, -step, error, n)
  {
    RoundKeepsOrder(Clamp(p + Held(lo, hi, i, p, -step, error, n), lo, hi), lo + step);
  }

  /** The duty written at the n-th sample of a die `excess` above the setpoint. */
  function Written(c: Ctl, dt: real, excess: real, registers: seq<nat>, n: nat): int
    requires 1 <= n <= |registers|
  {
    match DutyAfter(c, dt, c.cfg.setpoint + excess, registers[..n])
    case None => 0
    case Some(write) => write.duty
  }

  /** The law's numbers for a die `error` above - or below - the setpoint. */
  predicate LawAt(c: Ctl, dt: real, error: real, p: real, move: real) {
    p == P(GainsOf(c.cfg), error) && move == Move(GainsOf(c.cfg), error, dt)
  }

  lemma DutyIs(c: Ctl, dt: real, measured: real, error: real, registers: seq<nat>, p: real, move: real)
    requires Running(c) && registers != [] && measured - c.cfg.setpoint == error && LawAt(c, dt, error, p, move)
    ensures DutyAfter(c, dt, measured, registers)
         == Some(FanWrite(HeldDuty(30.0, 255.0, c.i, p, move, error, |registers|), LEASE_S))
  {
    HeldDie(c, dt, measured, registers);
  }

  lemma WrittenIs(c: Ctl, dt: real, error: real, registers: seq<nat>, n: nat, p: real, move: real)
    requires Running(c) && 1 <= n <= |registers| && LawAt(c, dt, error, p, move)
    ensures DutyAfter(c, dt, c.cfg.setpoint + error, registers[..n]).Some?
    ensures Written(c, dt, error, registers, n) == HeldDuty(30.0, 255.0, c.i, p, move, error, n)
  {
    DutyIs(c, dt, c.cfg.setpoint + error, error, registers[..n], p, move);
  }

  lemma LawUp(c: Ctl, dt: real, excess: real)
    requires Sane(c) && excess > 0.0
    ensures P(GainsOf(c.cfg), excess) >= 0.0 && (dt >= 0.0 ==> Move(GainsOf(c.cfg), excess, dt) >= 0.0)
  {
    ProductSign(c.cfg.kp, excess);
    if dt >= 0.0 {
      MoveSign(c.cfg.ki, excess, dt);
    }
  }

  lemma LawDown(c: Ctl, dt: real, lack: real, step: real)
    requires Sane(c) && lack > 0.0 && step == Move(GainsOf(c.cfg), lack, dt)
    ensures P(GainsOf(c.cfg), -lack) <= 0.0 && LawAt(c, dt, -lack, P(GainsOf(c.cfg), -lack), -step)
  {
    ProductSign(c.cfg.kp, lack);
    MirrorProducts(GainsOf(c.cfg), lack, dt);
  }

  lemma DutiesRise(c: Ctl, dt: real, excess: real, p: real, step: real, registers: seq<nat>, n: nat)
    requires Running(c) && excess > 0.0 && p >= 0.0 && step >= 0.0 && LawAt(c, dt, excess, p, step)
    requires 1 <= n < |registers|
    ensures DutyAfter(c, dt, c.cfg.setpoint + excess, registers[..n]).Some?
    ensures Written(c, dt, excess, registers, n) <= Written(c, dt, excess, registers, n + 1)
  {
    WrittenIs(c, dt, excess, registers, n, p, step);
    WrittenIs(c, dt, excess, registers, n + 1, p, step);
    DutyRises(30.0, 255.0, c.i, p, step, excess, n);
  }

  lemma DutiesFall(c: Ctl, dt: real, error: real, p: real, move: real, registers: seq<nat>, n: nat)
    requires Running(c) && error < 0.0 && p <= 0.0 && move <= 0.0 && LawAt(c, dt, error, p, move)
    requires 1 <= n < |registers|
    ensures DutyAfter(c, dt, c.cfg.setpoint + error, registers[..n]).Some?
    ensures Written(c, dt, error, registers, n) >= Written(c, dt, error, registers, n + 1)
  {
    WrittenIs(c, dt, error, registers, n, p, move);
    WrittenIs(c, dt, error, registers, n + 1, p, move);
    DutyFalls(30.0, 255.0, c.i, p, -move, error, n);
  }

  /** Main result. A die held above the setpoint - by `excess` - never has its fan lowered from sample
      to sample, whatever duties are read back. */
  lemma HotDieNeverGetsLess(c: Ctl, dt: real, excess: real, registers: seq<nat>, n: nat)
    requires Running(c) && dt >= 0.0 && excess > 0.0 && 1 <= n < |registers|
    ensures DutyAfter(c, dt, c.cfg.setpoint + excess, registers[..n]).Some?
    ensures Written(c, dt, excess, registers, n) <= Written(c, dt, excess, registers, n + 1)
  {
    LawUp(c, dt, excess);
    DutiesRise(c, dt, excess, P(GainsOf(c.cfg), excess), Move(GainsOf(c.cfg), excess, dt), registers, n);
  }

  /** And one held below it never has its fan raised. */
  lemma ColdDieNeverGetsMore(c: Ctl, dt: real, lack: real, registers: seq<nat>, n: nat)
    requires Running(c) && dt >= 0.0 && lack > 0.0 && 1 <= n < |registers|
    ensures DutyAfter(c, dt, c.cfg.setpoint - lack, registers[..n]).Some?
    ensures Written(c, dt, -lack, registers, n) >= Written(c, dt, -lack, registers, n + 1)
  {
    var step := Move(GainsOf(c.cfg), lack, dt);
    LawUp(c, dt, lack);
    LawDown(c, dt, lack, step);
    DutiesFall(c, dt, -lack, P(GainsOf(c.cfg), -lack), -step, registers, n);
    assert c.cfg.setpoint + -lack == c.cfg.setpoint - lack;
  }

  lemma TopDuties(c: Ctl, dt: real, excess: real, p: real, step: real, registers: seq<nat>, n: nat, m: nat)
    requires Running(c) && 0.0 < step && LawAt(c, dt, excess, p, step) && 1 <= n <= m <= |registers|
    requires AtTop(30.0, 255.0, c.i, p, step, excess, n, m)
    ensures Written(c, dt, excess, registers, n) >= Round(255.0 - step)
    ensures Written(c, dt, excess, registers, m) == Written(c, dt, excess, registers, n)
  {
    WrittenIs(c, dt, excess, registers, n, p, step);
    WrittenIs(c, dt, excess, registers, m, p, step);
    DutyAtTop(30.0, 255.0, c.i, p, step, excess, n, m);
  }

  lemma BottomDuties(c: Ctl, dt: real, error: real, p: real, move: real, registers: seq<nat>, n: nat, m: nat)
    requires Running(c) && move < 0.0 && LawAt(c, dt, error, p, move) && 1 <= n <= m <= |registers|
    requires AtBottom(30.0, 255.0, c.i, p, -move, error, n, m)
    ensures Written(c, dt, error, registers, n) <= Round(30.0 - move)
    ensures Written(c, dt, error, registers, m) == Written(c, dt, error, registers, n)
  {
    WrittenIs(c, dt, error, registers, n, p, move);
    WrittenIs(c, dt, error, registers, m, p, move);
    DutyAtBottom(30.0, 255.0, c.i, p, -move, error, n, m);
  }

  /** Main result. After (255 - 30) / step samples the fan of a die held above the setpoint is within
      one rounded step of 255, for good. */
  lemma HotDieGetsFullFan(c: Ctl, dt: real, excess: real, step: real, registers: seq<nat>, n: nat, m: nat)
    requires Running(c) && excess > 0.0 && step == Move(GainsOf(c.cfg), excess, dt) && step > 0.0
    requires 1 <= n <= m <= |registers| && n as real * step >= 255.0 - 30.0
    ensures Written(c, dt, excess, registers, n) >= Round(255.0 - step)
    ensures Written(c, dt, excess, registers, m) == Written(c, dt, excess, registers, n)
  {
    var p := P(GainsOf(c.cfg), excess);
    LawUp(c, dt, excess);
    Settles(30.0, 255.0, c.i, p, step, excess, n, m);
    TopDuties(c, dt, excess, p, step, registers, n, m);
  }

  /** The mirror: below the setpoint it goes to within one rounded step of 30, for good. */
  lemma ColdDieGetsLittleFan(c: Ctl, dt: real, lack: real, step: real, registers: seq<nat>, n: nat, m: nat)
    requires Running(c) && lack > 0.0 && step == Move(GainsOf(c.cfg), lack, dt) && step > 0.0
    requires 1 <= n <= m <= |registers| && n as real * step >= 255.0 - 30.0
    ensures Written(c, dt, -lack, registers, n) <= Round(30.0 + step)
    ensures Written(c, dt, -lack, registers, m) == Written(c, dt, -lack, registers, n)
  {
    var p := P(GainsOf(c.cfg), -lack);
    LawDown(c, dt, lack, step);
    MirrorSettles(30.0, 255.0, c.i, p, step, -lack, n, m);
    BottomDuties(c, dt, -lack, p, -step, registers, n, m);
  }

  // ---- two temperatures at one sample ----------------------------------------------------

  /** What one sample works with: the error's sign, the proportional part, the integrator it starts
      from and the integral step. */
  datatype Part = Part(error: real, p: real, start: real, move: real)

  predicate Consistent(lo: real, hi: real, a: Part) {
    && lo < hi && lo <= a.start <= hi
    && (a.error >= 0.0 ==> a.p >= 0.0 && a.move >= 0.0) && (a.error <= 0.0 ==> a.p <= 0.0 && a.move <= 0.0)
  }

  /** Integration is stopped, because it would push the output past the upper or the lower limit. */
  predicate StopsUp(hi: real, a: Part) {
    a.error > 0.0 && a.p + a.start + a.move > hi
  }

  predicate StopsDown(lo: real, a: Part) {
    a.error < 0.0 && a.p + a.start + a.move < lo
  }

  function OutputOf(lo: real, hi: real, a: Part): real
    requires lo <= hi
  {
    Clamp(a.p + Integrate(lo, hi, a.start, a.p, a.move, a.error), lo, hi)
  }

  /** The output before it is cut to the limits, if integration goes on. */
  function Unstopped(lo: real, hi: real, a: Part): real
    requires lo <= hi
  {
    a.p + Clamp(a.start + a.move, lo, hi)
  }

  /** The order of two outputs: where integration stops between the two, what the proportional part
      gains must make up for the step that is left out, unless the output is at its limit. */
  predicate MakesUp(lo: real, hi: real, a: Part, b: Part)
    requires lo <= hi
  {
    && (StopsUp(hi, b) && !StopsUp(hi, a) ==> Unstopped(lo, hi, a) <= b.p + b.start || b.p + b.start >= hi)
    && (StopsDown(lo, a) && !StopsDown(lo, b) ==> a.p + a.start <= Unstopped(lo, hi, b) || a.p + a.start <= lo)
  }

  predicate Below(a: Part, b: Part) {
    a.error <= b.error && a.p <= b.p && a.p + a.start <= b.p + b.start && a.move <= b.move
  }

  lemma InOrder(lo: real, hi: real, a: Part, b: Part)
    requires Consistent(lo, hi, a) && Consistent(lo, hi, b) && Below(a, b)
    ensures OutputOf(lo, hi, a) <= OutputOf(lo, hi, b) <==> MakesUp(lo, hi, a, b)
    ensures OutputOf(lo, hi, a) <= OutputOf(lo, hi, b) + Abs(a.move)
  {
  }

  /** A sample at a temperature. */
  function PartOf(c: Ctl, dt: real, measured: real, register: nat): Part {
    var g, error := GainsOf(c.cfg), measured - c.cfg.setpoint;
    Part(error, P(g, error),
         if c.needReset then Clamp(register as real - P(g, error), g.lo, g.hi) else c.i,
         Move(g, error, dt))
  }

  lemma SampleIs(c: Ctl, dt: real, measured: real, register: nat)
    requires Sane(c) && c.cfg.mode == Auto
    ensures Sampled(c, dt, Some(measured), Some(register)).1
         == Some(FanWrite(Round(OutputOf(30.0, 255.0, PartOf(c, dt, measured, register))), LEASE_S))
  {
  }

  /** Started, or started again, the controller changes the fan by at most one rounded integral step -
      if the integrator that this asks for is in range. */
  lemma BumplessStart(c: Ctl, dt: real, error: real, register: nat)
    requires Sane(c) && c.cfg.mode == Auto && c.needReset && 0.0 <= dt && FAN_MIN_DUTY <= register <= FAN_MAX_DUTY
    requires FAN_MIN_DUTY as real <= register as real - P(GainsOf(c.cfg), error) <= FAN_MAX_DUTY as real
    ensures var write := Sampled(c, dt, Some(c.cfg.setpoint + error), Some(register)).1;
            var step := c.cfg.ki * Abs(error) * dt;
            && write.Some?
            && Round(register as real - step) <= write.value.duty <= Round(register as real + step)
  {
    var g := GainsOf(c.cfg);
    assert c.cfg.setpoint + error - c.cfg.setpoint == error;
    BumplessReset(g, register as real, error, dt);
    WithinStep(Output(g, NextI(g, Clamp(register as real - P(g, error), g.lo, g.hi), error, dt), error),
               register as real, c.cfg.ki * Abs(error) * dt);
  }

  lemma WithinStep(output: real, start: real, step: real)
    requires Abs(output - start) <= step
    ensures Round(start - step) <= Round(output) <= Round(start + step)
  {
    RoundKeepsOrder(start - step, output);
    RoundKeepsOrder(output, start + step);
  }

  lemma PartIsConsistent(c: Ctl, dt: real, measured: real, register: nat)
    requires Sane(c) && dt >= 0.0
    ensures Consistent(30.0, 255.0, PartOf(c, dt, measured, register))
  {
    var error := measured - c.cfg.setpoint;
    MoveSign(c.cfg.ki, error, dt);
    ProductSign(c.cfg.kp, Abs(error));
  }

  lemma PartsAreOrdered(c: Ctl, dt: real, cooler: real, hotter: real, register: nat)
    requires Sane(c) && dt >= 0.0 && cooler <= hotter
    ensures Below(PartOf(c, dt, cooler, register), PartOf(c, dt, hotter, register))
  {
    var a, b := cooler - c.cfg.setpoint, hotter - c.cfg.setpoint;
    ProductSign(c.cfg.kp, b - a);
    assert c.cfg.kp * b == c.cfg.kp * a + c.cfg.kp * (b - a);
    MoveSign(c.cfg.ki, b - a, dt);
    assert c.cfg.ki * b * dt == c.cfg.ki * a * dt + c.cfg.ki * (b - a) * dt;
  }

  /** Main result, with everything else equal: a hotter die gets no less output exactly if integration
      does not stop between the two temperatures, or the proportional part makes up for it. It
      never gets less by more than one integral step; and where it gets no less output, it gets no
      less fan. */
  lemma HotterIff(c: Ctl, dt: real, cooler: real, hotter: real, register: nat)
    requires Sane(c) && c.cfg.mode == Auto && dt >= 0.0 && cooler <= hotter && register < 256
    ensures var a, b := PartOf(c, dt, cooler, register), PartOf(c, dt, hotter, register);
            var less := Sampled(c, dt, Some(cooler), Some(register)).1;
            var more := Sampled(c, dt, Some(hotter), Some(register)).1;
            && (OutputOf(30.0, 255.0, a) <= OutputOf(30.0, 255.0, b) <==> MakesUp(30.0, 255.0, a, b))
            && OutputOf(30.0, 255.0, a)
               <= OutputOf(30.0, 255.0, b) + Abs(Move(GainsOf(c.cfg), cooler - c.cfg.setpoint, dt))
            && less.Some? && more.Some?
            && less.value.duty == Round(OutputOf(30.0, 255.0, a)) && more.value.duty == Round(OutputOf(30.0, 255.0, b))
            && (MakesUp(30.0, 255.0, a, b) ==> less.value.duty <= more.value.duty)
  {
    var a, b := PartOf(c, dt, cooler, register), PartOf(c, dt, hotter, register);
    PartIsConsistent(c, dt, cooler, register);
    PartIsConsistent(c, dt, hotter, register);
    PartsAreOrdered(c, dt, cooler, hotter, register);
    InOrder(30.0, 255.0, a, b);
    SampleIs(c, dt, cooler, register);
    SampleIs(c, dt, hotter, register);
    if MakesUp(30.0, 255.0, a, b) {
      RoundKeepsOrder(OutputOf(30.0, 255.0, a), OutputOf(30.0, 255.0, b));
    }
  }

  /** It can get less: with the gains it comes with, a controller at rest gives a die of 55.5 degrees a
      duty of 253 and one of 55.6 degrees 248, because integration stops between the two. */
  lemma HotterGetsLess(register: nat)
    ensures var c := Ctl(Settings(Auto, 42.0, 128, 16.0, 0.55), 30.0, false, 0);
            && Sampled(c, 1.0, Some(55.5), Some(register)).1 == Some(FanWrite(253, LEASE_S))
            && Sampled(c, 1.0, Some(55.6), Some(register)).1 == Some(FanWrite(248, LEASE_S))
  {
    assert 16.0 * 13.5 == 216.0 && 0.55 * 13.5 * 1.0 == 7.425;
    assert 16.0 * 13.6 == 217.6 && 0.55 * 13.6 * 1.0 == 7.48;
  }

  // ---- away from the limits --------------------------------------------------------------

  /** The integral of a history's errors over its times, with its gain. */
  function Integral(ki: real, history: seq<(real, real)>): real {
    if history == [] then 0.0
    else
      var (error, dt) := history[|history| - 1];
      Integral(ki, history[..|history| - 1]) + ki * error * dt
  }

  /** Nothing was cut or stopped on the way. */
  predicate Unlimited(g: Gains, i: real, history: seq<(real, real)>)
    requires g.lo <= g.hi
  {
    history == [] || (
      var n := |history| - 1;
      var before := After(g, i, history[..n]);
      var next := before + Move(g, history[n].0, history[n].1);
      && Unlimited(g, i, history[..n])
      && g.lo <= next <= g.hi && g.lo <= P(g, history[n].0) + next <= g.hi)
  }

  lemma FreeNext(g: Gains, i: real, history: seq<(real, real)>)
    requires g.lo <= i <= g.hi && history != [] && Unlimited(g, i, history)
    ensures var n := |history| - 1;
            var next := After(g, i, history[..n]) + Move(g, history[n].0, history[n].1);
            After(g, i, history) == next && Output(g, next, history[n].0) == P(g, history[n].0) + next
  {
    var n := |history| - 1;
    var (error, dt) := history[n];
    FreeStep(g.lo, g.hi, After(g, i, history[..n]), P(g, error), Move(g, error, dt), error);
  }

  lemma {:induction false} IntegratorIs(g: Gains, i: real, history: seq<(real, real)>)
    requires g.lo <= i <= g.hi && Unlimited(g, i, history)
    ensures After(g, i, history) == i + Integral(g.ki, history)
  {
    if history != [] {
      IntegratorIs(g, i, history[..|history| - 1]);
      FreeNext(g, i, history);
    }
  }

  /** Main result. Away from its limits the law is the textbook's: the output is kp times the error,
      plus where the integrator started, plus ki times the integral of the error. */
  lemma TextbookLaw(g: Gains, i: real, history: seq<(real, real)>)
    requires g.lo <= i <= g.hi && history != [] && Unlimited(g, i, history)
    ensures var error := history[|history| - 1].0;
            Output(g, After(g, i, history), error) == g.kp * error + i + Integral(g.ki, history)
  {
    FreeNext(g, i, history);
    IntegratorIs(g, i, history);
  }

  lemma FreeStep(lo: real, hi: real, i: real, p: real, move: real, error: real)
    requires lo <= i + move <= hi && lo <= p + (i + move) <= hi
    ensures Integrate(lo, hi, i, p, move, error) == i + move && Clamp(p + (i + move), lo, hi) == p + (i + move)
  {
  }
}
