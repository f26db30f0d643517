/**
 * The idle head and eye behaviour advanced every tick: rest decay or easing toward a
 * chosen head target, the eye-contact toggle, gaze-target selection with both eyeballs
 * steered together, and the idle noise (jitter, mouth width, new head targets, brows).
 *
 * Random numbers are inputs: `IdleDraws` holds one value per call site of the source's
 * `randFloat()` (a real) or `rand()` (a natural number).
 */
module HeadBehavior {
  import opened Vectors

  const DECAY: real := 0.1
  const DEGREES_BETWEEN_VIEWER_EYES: real := 3.0
  const DEGREES_TO_VIEWER_MOUTH: real := 7.0

  /** The two entries (indices 0 and 1) of a per-side array of the source. */
  datatype Sides = Sides(first: real, second: real)

  datatype GazeTarget = LeftEye | RightEye | Mouth

  datatype HeadState = HeadState(
    yaw: real, pitch: real, roll: real,
    pitchTarget: real, yawTarget: real,
    leanForward: real, leanSideways: real,
    eyeballPitch: Sides, eyeballYaw: Sides,
    eyebrowPitch: Sides, eyebrowRoll: Sides,
    mouthWidth: real,
    eyeContact: bool, eyeContactTarget: GazeTarget,
    noise: bool, noiseEnvelope: real)

  datatype IdleDraws = IdleDraws(
    contactToggle: real, awayPitch: real, awayYaw: real,
    retarget: real, mouthTarget: real, eyeSide: real,
    noisePitch: real, noiseYaw: real,
    mouthRoll: real, mouthChoice: nat,
    idleEyePitchRoll: real, idleEyePitch: real, idleEyeYawRoll: real, idleEyeYaw: real,
    headTargetRoll: real, newPitchTarget: real, newYawTarget: real,
    browRoll: real, browPitchChoice: nat, browRollChoice: nat)

  function MouthWidthChoice(i: nat): real {
    if i % 3 == 0 then 0.5 else if i % 3 == 1 then 0.77 else 0.3
  }

  function BrowPitchAngle(i: nat): real {
    if i % 3 == 0 then -70.0 else if i % 3 == 1 then -60.0 else -50.0
  }

  function BrowRollAngle(i: nat): real {
    if i % 5 == 0 then 0.0 else if i % 5 == 1 then 15.0 else if i % 5 == 2 then 30.0
    else if i % 5 == 3 then -30.0 else -15.0
  }

  /** The head state a new avatar starts with. */
  const InitialHead: HeadState := HeadState(
    0.0, 0.0, 0.0, 0.0, 0.0, 0.0, 0.0,
    Sides(0.0, 0.0), Sides(0.0, 0.0), Sides(-30.0, -30.0), Sides(20.0, -20.0),
    1.0, true, LeftEye, false, 1.0)

  /** Both eyeballs point the same way. */
  predicate EyesTogether(h: HeadState) {
    h.eyeballPitch.first == h.eyeballPitch.second && h.eyeballYaw.first == h.eyeballYaw.second
  }

  /** The brows share a pitch and have opposite rolls. */
  predicate BrowsMirrored(h: HeadState) {
    h.eyebrowPitch.first == h.eyebrowPitch.second && h.eyebrowRoll.second == -h.eyebrowRoll.first
  }

  /** Gaze offsets (pitch, yaw) for each target: the viewer's eyes sit either side, the mouth below. */
  function GazeAdjust(t: GazeTarget): (real, real) {
    match t
    case LeftEye => (0.0, DEGREES_BETWEEN_VIEWER_EYES)
    case RightEye => (0.0, -DEGREES_BETWEEN_VIEWER_EYES)
    case Mouth => (DEGREES_TO_VIEWER_MOUTH, 0.0)
  }

  function WithHeadTarget(h: HeadState, pitch: real, yaw: real): HeadState {
    h.(pitchTarget := pitch, yawTarget := yaw)
  }

  /** The head re-centred: level, facing ahead and not leaning. */
  function Recentered(h: HeadState): HeadState {
    h.(pitch := 0.0, yaw := 0.0, roll := 0.0, leanForward := 0.0, leanSideways := 0.0)
  }

  /** A lean impulse added to the current lean. */
  function WithLean(h: HeadState, sideways: real, forward: real): HeadState {
    h.(leanSideways := h.leanSideways + sideways, leanForward := h.leanForward + forward)
  }

  /** Lean impulses accumulate: two impulses lean the head as far as their sum. */
  lemma LeanImpulsesAccumulate(h: HeadState, x1: real, z1: real, x2: real, z2: real)
    ensures WithLean(WithLean(h, x1, z1), x2, z2) == WithLean(h, x1 + x2, z1 + z2)
  {
  }

  /**
   * Rest decay: without noise pitch, yaw and roll decay toward zero; with noise pitch
   * and yaw ease toward their targets while roll decays; lean always decays.
   */
  function HeadRestStep(h: HeadState, dt: real): (r: HeadState)
    ensures r == h.(pitch := r.pitch, yaw := r.yaw, roll := r.roll, leanForward := r.leanForward, leanSideways := r.leanSideways)
  {
    var turned :=
      if !h.noise then
        h.(pitch := h.pitch * (1.0 - DECAY * 2.0 * dt),
           yaw := h.yaw * (1.0 - DECAY * 2.0 * dt),
           roll := h.roll * (1.0 - DECAY * 2.0 * dt))
      else
        h.(pitch := h.pitch + (h.pitchTarget - h.pitch) * 10.0 * dt,
           yaw := h.yaw + (h.yawTarget - h.yaw) * 10.0 * dt,
           roll := h.roll * (1.0 - DECAY * dt));
    turned.(leanForward := turned.leanForward * (1.0 - DECAY * 30.0 * dt),
            leanSideways := turned.leanSideways * (1.0 - DECAY * 30.0 * dt))
  }

  /** Without noise, a step `0 < dt < 10` of rest decay never grows pitch, yaw or roll, and shrinks any that is non-zero. */
  lemma RestDecayShrinksHead(h: HeadState, dt: real)
    requires !h.noise && 0.0 < dt < 10.0
    ensures var r := HeadRestStep(h, dt);
      Abs(r.pitch) <= Abs(h.pitch) && Abs(r.yaw) <= Abs(h.yaw) && Abs(r.roll) <= Abs(h.roll) &&
      (h.pitch != 0.0 ==> Abs(r.pitch) < Abs(h.pitch)) &&
      (h.yaw != 0.0 ==> Abs(r.yaw) < Abs(h.yaw)) &&
      (h.roll != 0.0 ==> Abs(r.roll) < Abs(h.roll))
  {
    var r := HeadRestStep(h, dt);
    var f := 1.0 - DECAY * 2.0 * dt;
    assert -1.0 < f < 1.0 by {
      assert DECAY * 2.0 * dt < 2.0;
    }
    assert r.pitch == h.pitch * f;
    assert r.yaw == h.yaw * f;
    assert r.roll == h.roll * f;
    ContractionShrinks(h.pitch, r.pitch, f);
    ContractionShrinks(h.yaw, r.yaw, f);
    ContractionShrinks(h.roll, r.roll, f);
  }

  /** A step `0 < dt < 2/3` never grows either lean. */
  lemma RestDecayShrinksLean(h: HeadState, dt: real)
    requires 0.0 < dt < 2.0 / 3.0
    ensures var r := HeadRestStep(h, dt);
      Abs(r.leanForward) <= Abs(h.leanForward) && Abs(r.leanSideways) <= Abs(h.leanSideways)
  {
    var r := HeadRestStep(h, dt);
    var f := 1.0 - DECAY * 30.0 * dt;
    assert -1.0 < f < 1.0;
    assert r.leanForward == h.leanForward * f && r.leanSideways == h.leanSideways * f;
    ContractionShrinks(h.leanForward, r.leanForward, f);
    ContractionShrinks(h.leanSideways, r.leanSideways, f);
  }

  /** With noise on, a step `0 < dt < 0.2` never widens the gap between the head and its target. */
  lemma NoisyHeadApproachesTarget(h: HeadState, dt: real)
    requires h.noise && 0.0 < dt < 0.2
    ensures var r := HeadRestStep(h, dt);
      Abs(h.pitchTarget - r.pitch) <= Abs(h.pitchTarget - h.pitch) &&
      Abs(h.yawTarget - r.yaw) <= Abs(h.yawTarget - h.yaw)
  {
    var r := HeadRestStep(h, dt);
    var f := 1.0 - 10.0 * dt;
    assert -1.0 < f < 1.0;
    assert r.pitch == h.pitch + (h.pitchTarget - h.pitch) * 10.0 * dt;
    assert r.yaw == h.yaw + (h.yawTarget - h.yaw) * 10.0 * dt;
    assert h.pitchTarget - r.pitch == (h.pitchTarget - h.pitch) * f;
    assert h.yawTarget - r.yaw == (h.yawTarget - h.yaw) * f;
    ContractionShrinks(h.pitchTarget - h.pitch, h.pitchTarget - r.pitch, f);
    ContractionShrinks(h.yawTarget - h.yaw, h.yawTarget - r.yaw, f);
  }

  /** Without noise a re-centred head is a fixed point of the rest decay. */
  lemma RecenteredHeadStaysAtRest(h: HeadState, dt: real)
    requires !h.noise
    ensures HeadRestStep(Recentered(h), dt) == Recentered(h)
  {
  }

  /**
   * The eye-contact toggle and gaze. The toggle flips contact and then forces it back on,
   * so contact always holds afterwards and the look-away branch is never taken; when the
   * toggle fires the head target is reset to straight ahead. With contact, a new gaze
   * target may be drawn and both eyeballs counter-rotate against the head plus the target's offset.
   */
  function EyeContactStep(h: HeadState, d: IdleDraws): (r: HeadState)
    ensures r.eyeContact <==> h.eyeContact || d.contactToggle < 0.005
    ensures r.eyeContact ==>
      (EyesTogether(r) &&
       r.eyeballPitch.first == -h.pitch + GazeAdjust(r.eyeContactTarget).0 &&
       r.eyeballYaw.first == -h.yaw + GazeAdjust(r.eyeContactTarget).1)
    ensures !r.eyeContact ==> r == h
    ensures d.contactToggle < 0.005 ==> r.pitchTarget == 0.0 && r.yawTarget == 0.0
    ensures d.contactToggle >= 0.005 ==> r.pitchTarget == h.pitchTarget && r.yawTarget == h.yawTarget
    ensures d.retarget >= 0.01 ==> r.eyeContactTarget == h.eyeContactTarget
    ensures d.retarget < 0.01 && r.eyeContact ==> (r.eyeContactTarget == Mouth <==> d.mouthTarget < 0.1)
    ensures d.retarget < 0.01 && r.eyeContact && d.mouthTarget >= 0.1 ==> (r.eyeContactTarget == LeftEye <==> d.eyeSide < 0.5)
    ensures r == h.(eyeContact := r.eyeContact, eyeContactTarget := r.eyeContactTarget,
                    pitchTarget := r.pitchTarget, yawTarget := r.yawTarget,
                    eyeballPitch := r.eyeballPitch, eyeballYaw := r.eyeballYaw)
  {
    var toggled :=
      if d.contactToggle < 0.005 then
        var flipped := h.(eyeContact := !h.eyeContact).(eyeContact := true);
        if !flipped.eyeContact then
          var p := flipped.eyeballPitch.first + 5.0 + (d.awayPitch - 0.5) * 10.0;
          var y := flipped.eyeballYaw.first + 5.0 + (d.awayYaw - 0.5) * 5.0;
          flipped.(eyeballPitch := Sides(p, p), eyeballYaw := Sides(y, y))
        else WithHeadTarget(flipped, 0.0, 0.0)
      else h;
    if toggled.eyeContact then
      var target :=
        if d.retarget < 0.01 then
          if d.mouthTarget < 0.1 then Mouth else if d.eyeSide < 0.5 then LeftEye else RightEye
        else toggled.eyeContactTarget;
      var adjust := GazeAdjust(target);
      var p := -toggled.pitch + adjust.0;
      var y := -toggled.yaw + adjust.1;
      toggled.(eyeContactTarget := target, eyeballPitch := Sides(p, p), eyeballYaw := Sides(y, y))
    else toggled
  }

  /**
   * Idle noise, only while the noise flag is set: head jitter scaled by the envelope,
   * an occasional mouth width from the fixed choices, an occasional new head target
   * once the head is within a degree of the current one, and occasional brows from the
   * fixed angle sets with the second roll mirrored. Eyeballs move only without contact.
   */
  function IdleNoiseStep(h: HeadState, d: IdleDraws): (r: HeadState)
    ensures !h.noise ==> r == h
    ensures h.eyeContact ==> r.eyeballPitch == h.eyeballPitch && r.eyeballYaw == h.eyeballYaw
    ensures EyesTogether(h) ==> EyesTogether(r)
    ensures BrowsMirrored(h) ==> BrowsMirrored(r)
    ensures r.mouthWidth == h.mouthWidth || r.mouthWidth in {0.5, 0.77, 0.3}
    ensures r.eyebrowPitch == h.eyebrowPitch || r.eyebrowPitch.first in {-70.0, -60.0, -50.0}
    ensures r.eyebrowRoll == h.eyebrowRoll || r.eyebrowRoll.first in {0.0, 15.0, 30.0, -30.0, -15.0}
    ensures r.eyeContact == h.eyeContact && r.eyeContactTarget == h.eyeContactTarget
    ensures r.roll == h.roll && r.leanForward == h.leanForward && r.leanSideways == h.leanSideways
  {
    if !h.noise then h
    else
      var jittered := h.(pitch := h.pitch + (d.noisePitch - 0.5) * 0.2 * h.noiseEnvelope,
                         yaw := h.yaw + (d.noiseYaw - 0.5) * 0.3 * h.noiseEnvelope);
      var mouthed := if d.mouthRoll < 0.005 then jittered.(mouthWidth := MouthWidthChoice(d.mouthChoice)) else jittered;
      var looked :=
        if !mouthed.eyeContact then
          var p := if d.idleEyePitchRoll < 0.01 then Sides((d.idleEyePitch - 0.5) * 20.0, (d.idleEyePitch - 0.5) * 20.0)
                   else mouthed.eyeballPitch;
          var y := if d.idleEyeYawRoll < 0.01 then Sides((d.idleEyeYaw - 0.5) * 10.0, (d.idleEyeYaw - 0.5) * 10.0)
                   else mouthed.eyeballYaw;
          mouthed.(eyeballPitch := p, eyeballYaw := y)
        else mouthed;
      var retargeted :=
        if d.headTargetRoll < 0.005 && Abs(looked.pitchTarget - looked.pitch) < 1.0 && Abs(looked.yawTarget - looked.yaw) < 1.0
        then WithHeadTarget(looked, (d.newPitchTarget - 0.5) * 20.0, (d.newYawTarget - 0.5) * 45.0)
        else looked;
      if d.browRoll < 0.01 then
        var bp := BrowPitchAngle(d.browPitchChoice);
        var br := BrowRollAngle(d.browRollChoice);
        retargeted.(eyebrowPitch := Sides(bp, bp), eyebrowRoll := Sides(br, br * -1.0))
      else retargeted
  }

  /**
   * With draws in `[0, 1)` (the range of `randFloat`), the idle jitter moves the head by at
   * most a tenth of the noise envelope in pitch and three twentieths of it in yaw.
   */
  lemma NoiseJitterIsBounded(h: HeadState, d: IdleDraws)
    requires 0.0 <= d.noisePitch < 1.0 && 0.0 <= d.noiseYaw < 1.0
    ensures var r := IdleNoiseStep(h, d);
      Abs(r.pitch - h.pitch) <= 0.1 * Abs(h.noiseEnvelope) && Abs(r.yaw - h.yaw) <= 0.15 * Abs(h.noiseEnvelope)
  {
    if h.noise {
      var r := IdleNoiseStep(h, d);
      JitterBound(d.noisePitch, 0.2, h.noiseEnvelope, r.pitch - h.pitch);
      JitterBound(d.noiseYaw, 0.3, h.noiseEnvelope, r.yaw - h.yaw);
    }
  }

  /** A draw in `[0, 1)`, centred and scaled by `k` and the envelope, moves by at most `k / 2` envelopes. */
  lemma JitterBound(u: real, k: real, envelope: real, step: real)
    requires 0.0 <= u < 1.0 && k >= 0.0 && step == (u - 0.5) * k * envelope
    ensures Abs(step) <= k / 2.0 * Abs(envelope)
  {
    var a := u - 0.5;
    var c := a * k;
    var half := k / 2.0;
    MulMonotone(-0.5, a, k);
    MulMonotone(a, 0.5, k);
    assert step == c * envelope;
    if envelope >= 0.0 {
      MulMonotone(-half, c, envelope);
      MulMonotone(c, half, envelope);
    } else {
      var m := -envelope;
      MulMonotone(-half, c, m);
      MulMonotone(c, half, m);
    }
  }

  lemma MulMonotone(x: real, y: real, z: real)
    requires x <= y && z >= 0.0
    ensures x * z <= y * z
  {
    var d := y - x;
    assert d * z >= 0.0;
  }

  /**
   * With draws in `[0, 1)` (the range of `randFloat`), the head targets the idle noise
   * chooses lie within 10 degrees of level in pitch and 22.5 degrees in yaw.
   */
  lemma NoiseTargetsStayInRange(h: HeadState, d: IdleDraws)
    requires 0.0 <= d.newPitchTarget < 1.0 && 0.0 <= d.newYawTarget < 1.0
    requires -10.0 <= h.pitchTarget <= 10.0 && -22.5 <= h.yawTarget <= 22.5
    ensures var r := IdleNoiseStep(h, d);
      -10.0 <= r.pitchTarget <= 10.0 && -22.5 <= r.yawTarget <= 22.5
  {
  }
}
