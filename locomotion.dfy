/**
 * Driving the avatar: the drive keys build a thrust along the body axes and turn the
 * body, the motion mode is read off the current motion, and each tick integrates the
 * thrust into the velocity and position and then decays the velocity and the turn rate.
 */
module Locomotion {
  import opened Vectors

  const THRUST_MAG: real := 10.0
  const YAW_MAG: real := 300.0
  const LIN_VEL_DECAY: real := 5.0
  const YAW_DECAY: real := 5.0
  /** Combined translational and rotational speed above which the avatar counts as walking. */
  const WALKING_THRESHOLD: real := 0.2

  datatype AvatarMode = Standing | Walking | Interacting

  /** Which drive keys are held this tick. */
  datatype DriveKeys = DriveKeys(
    forward: bool, back: bool, left: bool, right: bool,
    up: bool, down: bool, rotateLeft: bool, rotateRight: bool)

  const NoKeys: DriveKeys := DriveKeys(false, false, false, false, false, false, false, false)

  /** `+1`, `-1` or `0`: the net direction of a pair of opposing keys. */
  function Direction(plus: bool, minus: bool): real {
    (if plus then 1.0 else 0.0) - (if minus then 1.0 else 0.0)
  }

  /** One opposing key pair applied to the thrust: the plus key adds `THRUST_MAG` along the axis, then the minus key takes it away. */
  function KeyPair(t: Vec3, plus: bool, minus: bool, axis: Vec3): Vec3 {
    var pushed := if plus then Add(t, Scale(THRUST_MAG, axis)) else t;
    if minus then Sub(pushed, Scale(THRUST_MAG, axis)) else pushed
  }

  /** The thrust the keys produce, accumulated key by key: forward, back, right, left, up, down. */
  function Thrust(keys: DriveKeys, basis: Basis): Vec3 {
    var t := KeyPair(Zero, keys.forward, keys.back, basis.front);
    var t' := KeyPair(t, keys.right, keys.left, basis.right);
    KeyPair(t', keys.up, keys.down, basis.up)
  }

  /** The net push of one opposing key pair: `THRUST_MAG` along the axis, against it, or nothing when both or neither are held. */
  function NetPush(plus: bool, minus: bool, axis: Vec3): Vec3 {
    if plus == minus then Zero
    else if plus then Scale(THRUST_MAG, axis)
    else Scale(-THRUST_MAG, axis)
  }

  lemma KeyPairAddsNetPush(t: Vec3, plus: bool, minus: bool, axis: Vec3)
    ensures KeyPair(t, plus, minus, axis) == Add(t, NetPush(plus, minus, axis))
  {
  }

  /**
   * The thrust is the sum of the net pushes of the three key pairs along their axes:
   * opposite keys cancel and no key gives no thrust.
   */
  lemma ThrustIsNetPush(keys: DriveKeys, basis: Basis)
    ensures Thrust(keys, basis) ==
      Add(Add(NetPush(keys.forward, keys.back, basis.front), NetPush(keys.right, keys.left, basis.right)),
          NetPush(keys.up, keys.down, basis.up))
  {
    var t := KeyPair(Zero, keys.forward, keys.back, basis.front);
    KeyPairAddsNetPush(Zero, keys.forward, keys.back, basis.front);
    var t' := KeyPair(t, keys.right, keys.left, basis.right);
    KeyPairAddsNetPush(t, keys.right, keys.left, basis.right);
    KeyPairAddsNetPush(t', keys.up, keys.down, basis.up);
    var f := NetPush(keys.forward, keys.back, basis.front);
    assert t == Add(Zero, f);
    assert Add(Zero, f) == f;
    assert t' == Add(f, NetPush(keys.right, keys.left, basis.right));
  }

  /** The turn rate after the rotation keys: rotate-right lowers it and rotate-left raises it by `YAW_MAG * dt`. */
  function YawDeltaAfterKeys(yawDelta: real, keys: DriveKeys, dt: real): (r: real)
    ensures r - yawDelta == YAW_MAG * dt * Direction(keys.rotateLeft, keys.rotateRight)
  {
    var turnedRight := if keys.rotateRight then yawDelta - YAW_MAG * dt else yawDelta;
    if keys.rotateLeft then turnedRight + YAW_MAG * dt else turnedRight
  }

  /** The mode after a tick: walking when translational plus rotational speed exceeds the threshold, otherwise interacting. */
  function ModeFor(speed: real, yawDelta: real): (m: AvatarMode)
    ensures m != Standing
    ensures m == Walking <==> speed + Abs(yawDelta) > WALKING_THRESHOLD
  {
    if speed + Abs(yawDelta) > WALKING_THRESHOLD then Walking else Interacting
  }

  /** The velocity after one tick: thrust added over `dt`, then decayed by `1 - LIN_VEL_DECAY * dt`. */
  function NextVelocity(velocity: Vec3, thrust: Vec3, dt: real): Vec3 {
    Scale(1.0 - LIN_VEL_DECAY * dt, Add(velocity, Scale(dt, thrust)))
  }

  /** The position after one tick: moved by the thrust-updated velocity (before its decay) over `dt`. */
  function NextPosition(position: Vec3, velocity: Vec3, thrust: Vec3, dt: real): Vec3 {
    Add(position, Scale(dt, Add(velocity, Scale(dt, thrust))))
  }

  /** The velocity after `n` ticks under a constant thrust. */
  function VelocityAfterTicks(v0: Vec3, thrust: Vec3, dt: real, n: nat): Vec3
    decreases n
  {
    if n == 0 then v0 else NextVelocity(VelocityAfterTicks(v0, thrust, dt, n - 1), thrust, dt)
  }

  function Pow(c: real, n: nat): real
    decreases n
  {
    if n == 0 then 1.0 else c * Pow(c, n - 1)
  }

  /** The multiple of the thrust the velocity reaches from rest after `n` ticks. */
  function ThrustMultiple(dt: real, n: nat): real
    decreases n
  {
    if n == 0 then 0.0 else DecayStep(ThrustMultiple(dt, n - 1), dt)
  }

  /** One tick of the multiple: the tick's thrust added, then the decay. */
  function DecayStep(s: real, dt: real): real {
    (1.0 - LIN_VEL_DECAY * dt) * (s + dt)
  }

  /** Starting from rest under a constant thrust, the velocity stays the thrust scaled by `ThrustMultiple`. */
  lemma {:induction false} VelocityFromRest(thrust: Vec3, dt: real, n: nat)
    ensures VelocityAfterTicks(Zero, thrust, dt, n) == Scale(ThrustMultiple(dt, n), thrust)
    decreases n
  {
    if n == 0 {
      assert Scale(0.0, thrust) == Zero;
    } else {
      VelocityFromRest(thrust, dt, n - 1);
      DecayedThrustStep(ThrustMultiple(dt, n - 1), dt, thrust);
    }
  }

  /** With `c = 1 - LIN_VEL_DECAY * dt`, the multiple `s` after `n` ticks obeys `(1 - c) * s == dt * c * (1 - c^n)`. */
  lemma {:induction false} ThrustMultipleClosedForm(dt: real, n: nat)
    ensures var c := 1.0 - LIN_VEL_DECAY * dt;
      (1.0 - c) * ThrustMultiple(dt, n) == dt * c * (1.0 - Pow(c, n))
    decreases n
  {
    if n > 0 {
      ThrustMultipleClosedForm(dt, n - 1);
      var c := 1.0 - LIN_VEL_DECAY * dt;
      RecurrenceStep(c, ThrustMultiple(dt, n - 1), dt, Pow(c, n - 1));
    }
  }

  lemma DecayedThrustStep(s: real, dt: real, thrust: Vec3)
    ensures NextVelocity(Scale(s, thrust), thrust, dt) == Scale(DecayStep(s, dt), thrust)
  {
    var w := Add(Scale(s, thrust), Scale(dt, thrust));
    assert w == Scale(s + dt, thrust);
    ScaleScale(1.0 - LIN_VEL_DECAY * dt, s + dt, thrust);
  }

  lemma RecurrenceStep(c: real, s: real, dt: real, p: real)
    requires c == 1.0 - LIN_VEL_DECAY * dt
    requires (1.0 - c) * s == dt * c * (1.0 - p)
    ensures (1.0 - c) * DecayStep(s, dt) == dt * c * (1.0 - c * p)
  {
    calc {
      (1.0 - c) * DecayStep(s, dt);
      (1.0 - c) * (c * (s + dt));
      c * ((1.0 - c) * s) + c * (1.0 - c) * dt;
      c * (dt * c * (1.0 - p)) + c * (1.0 - c) * dt;
      dt * c * (1.0 - c * p);
    }
  }

  lemma {:induction false} PowInUnitInterval(c: real, n: nat)
    requires 0.0 < c < 1.0
    ensures 0.0 < Pow(c, n) <= 1.0
    decreases n
  {
    if n > 0 {
      PowInUnitInterval(c, n - 1);
      assert c * Pow(c, n - 1) <= Pow(c, n - 1);
    }
  }

  /**
   * For a tick `0 < dt < 1/5` the velocity reached from rest along a constant thrust
   * never gets to the terminal multiple `(1 - 5 dt) / 5` of the thrust.
   */
  lemma TerminalVelocity(thrust: Vec3, dt: real, n: nat)
    requires 0.0 < dt < 1.0 / LIN_VEL_DECAY
    ensures 0.0 <= ThrustMultiple(dt, n) < (1.0 - LIN_VEL_DECAY * dt) / LIN_VEL_DECAY
  {
    var c := 1.0 - LIN_VEL_DECAY * dt;
    ThrustMultipleClosedForm(dt, n);
    PowInUnitInterval(c, n);
    var s := ThrustMultiple(dt, n);
    assert (1.0 - c) == LIN_VEL_DECAY * dt;
    assert LIN_VEL_DECAY * dt * s == dt * c * (1.0 - Pow(c, n));
    assert LIN_VEL_DECAY * s == c * (1.0 - Pow(c, n));
    assert c * (1.0 - Pow(c, n)) < c;
  }

  /** The position after `n` ticks under a constant thrust, starting at `p0` with velocity `v0`. */
  function PositionAfterTicks(p0: Vec3, v0: Vec3, thrust: Vec3, dt: real, n: nat): Vec3
    decreases n
  {
    if n == 0 then p0
    else NextPosition(PositionAfterTicks(p0, v0, thrust, dt, n - 1), VelocityAfterTicks(v0, thrust, dt, n - 1), thrust, dt)
  }

  /** The sum of the thrust multiples of the first `n` ticks, `s_0 + ... + s_(n-1)`. */
  function MultipleSum(dt: real, n: nat): real
    decreases n
  {
    if n == 0 then 0.0 else MultipleSum(dt, n - 1) + ThrustMultiple(dt, n - 1)
  }

  /** The geometric sum `1 + c + ... + c^(n-1)`. */
  function PowSum(c: real, n: nat): real
    decreases n
  {
    if n == 0 then 0.0 else PowSum(c, n - 1) + Pow(c, n - 1)
  }

  /** How far along the thrust a body starting from rest has moved after `n` ticks. */
  function Travel(dt: real, n: nat): real
    decreases n
  {
    if n == 0 then 0.0 else Travel(dt, n - 1) + dt * (ThrustMultiple(dt, n - 1) + dt)
  }

  /**
   * Starting from rest under a constant thrust, the body moves along the thrust by
   * `dt * (n * dt + s_0 + ... + s_(n-1))`: each tick it moves by the velocity before the
   * tick's decay, which is the previous multiple plus the tick's thrust.
   */
  lemma PositionFromRest(p0: Vec3, thrust: Vec3, dt: real, n: nat)
    ensures PositionAfterTicks(p0, Zero, thrust, dt, n) ==
      Add(p0, Scale(dt * (n as real * dt + MultipleSum(dt, n)), thrust))
  {
    PositionAlongThrust(p0, thrust, dt, n);
    TravelClosedForm(dt, n);
  }

  lemma {:induction false} PositionAlongThrust(p0: Vec3, thrust: Vec3, dt: real, n: nat)
    ensures PositionAfterTicks(p0, Zero, thrust, dt, n) == Add(p0, Scale(Travel(dt, n), thrust))
    decreases n
  {
    if n == 0 {
      assert Scale(0.0, thrust) == Zero;
    } else {
      PositionAlongThrust(p0, thrust, dt, n - 1);
      VelocityFromRest(thrust, dt, n - 1);
      MovedAlongThrust(p0, thrust, Travel(dt, n - 1), ThrustMultiple(dt, n - 1), dt, Travel(dt, n));
    }
  }

  /** A position `before` along the thrust, moved one tick from velocity `s * thrust`, is `before + dt * (s + dt)` along it. */
  lemma MovedAlongThrust(p0: Vec3, thrust: Vec3, before: real, s: real, dt: real, after: real)
    requires after == before + dt * (s + dt)
    ensures NextPosition(Add(p0, Scale(before, thrust)), Scale(s, thrust), thrust, dt) ==
      Add(p0, Scale(after, thrust))
  {
    var w := s + dt;
    var step := dt * w;
    ScalesAdd(s, dt, thrust);
    ScaleScale(dt, w, thrust);
    ScalesAdd(before, step, thrust);
    assert Add(Add(p0, Scale(before, thrust)), Scale(step, thrust)) == Add(p0, Add(Scale(before, thrust), Scale(step, thrust)));
  }

  /** The distance travelled from rest is `dt * (n * dt + s_0 + ... + s_(n-1))`. */
  lemma TravelClosedForm(dt: real, n: nat)
    ensures Travel(dt, n) == dt * (n as real * dt + MultipleSum(dt, n))
  {
    TravelSum(dt, n);
    RepeatedIsProduct(dt, n);
  }

  lemma {:induction false} TravelSum(dt: real, n: nat)
    ensures Travel(dt, n) == dt * (Repeated(dt, n) + MultipleSum(dt, n))
    decreases n
  {
    if n == 0 {
      var zero := Repeated(dt, 0) + MultipleSum(dt, 0);
      assert zero == 0.0;
      assert dt * zero == 0.0;
    } else {
      TravelSum(dt, n - 1);
      TravelStep(dt, Travel(dt, n - 1), Repeated(dt, n - 1), MultipleSum(dt, n - 1), ThrustMultiple(dt, n - 1),
                 Travel(dt, n), Repeated(dt, n), MultipleSum(dt, n));
    }
  }

  lemma TravelStep(dt: real, t: real, r: real, m: real, s: real, t': real, r': real, m': real)
    requires t == dt * (r + m)
    requires t' == t + dt * (s + dt) && r' == r + dt && m' == m + s
    ensures t' == dt * (r' + m')
  {
  }

  /** With `c = 1 - LIN_VEL_DECAY * dt`, the multiple after `n` ticks is exactly `(c - c^(n+1)) / 5`. */
  lemma {:induction false} ThrustMultipleExact(dt: real, c: real, n: nat)
    requires c == 1.0 - LIN_VEL_DECAY * dt
    ensures LIN_VEL_DECAY * ThrustMultiple(dt, n) == c - Pow(c, n + 1)
    decreases n
  {
    if n > 0 {
      ThrustMultipleExact(dt, c, n - 1);
      ExactStep(c, ThrustMultiple(dt, n - 1), dt, n);
    }
  }

  lemma ExactStep(c: real, s: real, dt: real, n: nat)
    requires c == 1.0 - LIN_VEL_DECAY * dt
    requires LIN_VEL_DECAY * s == c - Pow(c, n)
    ensures LIN_VEL_DECAY * DecayStep(s, dt) == c - Pow(c, n + 1)
  {
    var p := Pow(c, n);
    assert Pow(c, n + 1) == c * p;
    calc {
      LIN_VEL_DECAY * DecayStep(s, dt);
      c * (LIN_VEL_DECAY * s + LIN_VEL_DECAY * dt);
      c * (c - p + (1.0 - c));
    }
  }

  /**
   * Given each tick's exact multiple, `5 * (s_0 + ... + s_(n-1)) == n * c - (c + c^2 + ... + c^n)`,
   * with `n * c` written as `Repeated(c, n)`.
   */
  lemma {:induction false} MultipleSumExact(dt: real, c: real, n: nat)
    requires forall k: nat :: LIN_VEL_DECAY * ThrustMultiple(dt, k) == c - Pow(c, k + 1)
    ensures LIN_VEL_DECAY * MultipleSum(dt, n) == Repeated(c, n) - (PowSum(c, n) + Pow(c, n) - 1.0)
    decreases n
  {
    if n > 0 {
      MultipleSumExact(dt, c, n - 1);
      SumStep(n, c, MultipleSum(dt, n - 1), ThrustMultiple(dt, n - 1), PowSum(c, n - 1), Pow(c, n - 1), Pow(c, n));
    }
  }

  lemma SumStep(n: nat, c: real, sum: real, s: real, g: real, q: real, p: real)
    requires n > 0
    requires LIN_VEL_DECAY * sum == Repeated(c, n - 1) - (g + q - 1.0)
    requires LIN_VEL_DECAY * s == c - p
    ensures LIN_VEL_DECAY * (sum + s) == Repeated(c, n) - ((g + q) + p - 1.0)
  {
  }

  /** `c` added to itself `n` times. */
  function Repeated(c: real, n: nat): real
    decreases n
  {
    if n == 0 then 0.0 else Repeated(c, n - 1) + c
  }

  /** `Repeated` is multiplication by `n`. */
  lemma {:induction false} RepeatedIsProduct(c: real, n: nat)
    ensures Repeated(c, n) == n as real * c
    decreases n
  {
    if n > 0 {
      RepeatedIsProduct(c, n - 1);
      assert (n - 1) as real * c + c == n as real * c;
    }
  }

  /**
   * The closed form of the summed multiples: with `c = 1 - 5 dt` and a tick `dt != 0`,
   * `5 * (s_0 + ... + s_(n-1)) == c * (n - (1 - c^n) / (1 - c))`.
   */
  lemma MultipleSumClosedForm(dt: real, c: real, n: nat)
    requires dt != 0.0 && c == 1.0 - LIN_VEL_DECAY * dt
    ensures LIN_VEL_DECAY * MultipleSum(dt, n) == c * (n as real - (1.0 - Pow(c, n)) / (1.0 - c))
  {
    MultipleSumByPowers(dt, c, n);
    SolvedSum(c, n, MultipleSum(dt, n));
  }

  lemma MultipleSumByPowers(dt: real, c: real, n: nat)
    requires c == 1.0 - LIN_VEL_DECAY * dt
    ensures LIN_VEL_DECAY * MultipleSum(dt, n) == Repeated(c, n) - (PowSum(c, n) + Pow(c, n) - 1.0)
  {
    forall k: nat ensures LIN_VEL_DECAY * ThrustMultiple(dt, k) == c - Pow(c, k + 1) {
      ThrustMultipleExact(dt, c, k);
    }
    MultipleSumExact(dt, c, n);
  }

  lemma SolvedSum(c: real, n: nat, sum: real)
    requires c != 1.0
    requires LIN_VEL_DECAY * sum == Repeated(c, n) - (PowSum(c, n) + Pow(c, n) - 1.0)
    ensures LIN_VEL_DECAY * sum == c * (n as real - (1.0 - Pow(c, n)) / (1.0 - c))
  {
    GeometricSum(c, n);
    EliminateGeometric(c, n, sum, PowSum(c, n), Pow(c, n));
  }

  /** For `c != 1`, `1 + c + ... + c^(n-1) == (1 - c^n) / (1 - c)`. */
  lemma {:induction false} GeometricSum(c: real, n: nat)
    requires c != 1.0
    ensures PowSum(c, n) == (1.0 - Pow(c, n)) / (1.0 - c)
    decreases n
  {
    if n == 0 {
      assert 1.0 - Pow(c, 0) == 0.0;
      assert 0.0 / (1.0 - c) == 0.0;
    } else {
      GeometricSum(c, n - 1);
      GeometricStep(c, PowSum(c, n - 1), Pow(c, n - 1), PowSum(c, n), Pow(c, n));
    }
  }

  lemma GeometricStep(c: real, g: real, p: real, g': real, p': real)
    requires c != 1.0 && g == (1.0 - p) / (1.0 - c)
    requires g' == g + p && p' == c * p
    ensures g' == (1.0 - p') / (1.0 - c)
  {
    var a := 1.0 - c;
    var r := (1.0 - p') / a;
    assert a * g == 1.0 - p;
    assert a * g' == 1.0 - p';
    assert a * r == 1.0 - p';
    Cancel(a, g', r);
  }

  lemma Cancel(a: real, x: real, y: real)
    requires a != 0.0 && a * x == a * y
    ensures x == y
  {
    assert a * (x - y) == 0.0;
  }

  lemma EliminateGeometric(c: real, n: nat, sum: real, g: real, q: real)
    requires c != 1.0
    requires LIN_VEL_DECAY * sum == Repeated(c, n) - (g + q - 1.0)
    requires g == (1.0 - q) / (1.0 - c)
    ensures LIN_VEL_DECAY * sum == c * (n as real - (1.0 - q) / (1.0 - c))
  {
    RepeatedIsProduct(c, n);
    assert (1.0 - c) * g == 1.0 - q;
  }

  /** The yaw after turning at `yawDelta` for `dt`. */
  function TurnedYaw(yaw: real, yawDelta: real, dt: real): real {
    yaw + yawDelta * dt
  }

  /** The turn rate after a tick's decay. */
  function DecayedYawDelta(yawDelta: real, dt: real): real {
    yawDelta * (1.0 - YAW_DECAY * dt)
  }

  /** For `0 < dt < 2/5` the decay never speeds the turn up. */
  lemma YawDecaySlowsTurn(yawDelta: real, dt: real)
    requires 0.0 < dt < 2.0 / YAW_DECAY
    ensures Abs(DecayedYawDelta(yawDelta, dt)) <= Abs(yawDelta)
  {
    var f := 1.0 - YAW_DECAY * dt;
    assert -1.0 < f < 1.0;
    ContractionShrinks(yawDelta, DecayedYawDelta(yawDelta, dt), f);
  }
}
