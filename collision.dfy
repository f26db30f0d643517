/**
 * The sphere collision responder: a bone inside the test sphere (grown by the bone's
 * radius) is pushed out onto its surface and receives a spring impulse, the body
 * receives a larger impulse, and a colliding tick ends with gravity and a ground bounce.
 */
module Collision {
  import opened Vectors
  import opened Skeleton
  import opened Springs

  /** Radius of the sphere that approximates the whole body in the coarse test. */
  const BODY_BOUNDING_RADIUS: real := 1.0
  const BONE_IMPULSE_SCALE: real := 8.0
  const BODY_IMPULSE_SCALE: real := 18.0
  const GRAVITY_IMPULSE: real := 0.05
  const GROUND_RESTITUTION: real := -0.7
  /** The velocity change gravity adds on a colliding tick (not scaled by the tick length). */
  const GRAVITY: Vec3 := Vec3(0.0, -GRAVITY_IMPULSE, 0.0)

  /** What the collision test leaves behind: the bone table, the body position and velocity, and whether springs run. */
  datatype Response = Response(bones: seq<Bone>, position: Vec3, velocity: Vec3, usingSprings: bool)

  /** The coarse test: the body's bounding sphere overlaps the collider. */
  predicate BodyNearSphere(body: Vec3, center: Vec3, sphereRadius: real, len: Vec3 -> real) {
    len(Sub(body, center)) < BODY_BOUNDING_RADIUS + sphereRadius
  }

  /** The bone's distance from the collider centre is below the combined radius. */
  predicate Penetrates(bone: Bone, center: Vec3, sphereRadius: real, len: Vec3 -> real) {
    len(Sub(bone.position, center)) < bone.radius + sphereRadius
  }

  /** A penetrating bone at a positive distance from the centre: the case that is resolved. */
  predicate Resolvable(bone: Bone, center: Vec3, sphereRadius: real, len: Vec3 -> real) {
    Penetrates(bone, center, sphereRadius, len) && len(Sub(bone.position, center)) > 0.0
  }

  /** The separation vector scaled by the penetration fraction `1 - distance / combinedRadius`. */
  function CollisionForce(bone: Bone, center: Vec3, sphereRadius: real, len: Vec3 -> real): Vec3
    requires Resolvable(bone, center, sphereRadius, len)
  {
    var v := Sub(bone.position, center);
    Scale(1.0 - len(v) / (bone.radius + sphereRadius), v)
  }

  /** What one bone of the per-bone pass becomes. */
  function CollideBone(bone: Bone, center: Vec3, sphereRadius: real, dt: real, len: Vec3 -> real): (r: Bone)
    ensures r == bone.(position := r.position, springyVelocity := r.springyVelocity)
  {
    if Resolvable(bone, center, sphereRadius, len) then
      var v := Sub(bone.position, center);
      var direction := Scale(1.0 / len(v), v);
      var force := CollisionForce(bone, center, sphereRadius, len);
      bone.(springyVelocity := Add(bone.springyVelocity, Scale(dt, Scale(BONE_IMPULSE_SCALE, force))),
            position := Add(center, Scale(bone.radius + sphereRadius, direction)))
    else bone
  }

  /** The bone table after the per-bone pass. */
  function CollidedTable(bs: seq<Bone>, center: Vec3, sphereRadius: real, dt: real, len: Vec3 -> real): (r: seq<Bone>)
    ensures |r| == |bs|
    ensures forall j :: 0 <= j < |bs| ==> r[j] == bs[j].(position := r[j].position, springyVelocity := r[j].springyVelocity)
  {
    seq(|bs|, j requires 0 <= j < |bs| => CollideBone(bs[j], center, sphereRadius, dt, len))
  }

  /** The impulse one bone of the pass hands to the body velocity. */
  function BodyImpulse(bone: Bone, center: Vec3, sphereRadius: real, dt: real, len: Vec3 -> real): Vec3 {
    if Resolvable(bone, center, sphereRadius, len) then
      Scale(dt, Scale(BODY_IMPULSE_SCALE, CollisionForce(bone, center, sphereRadius, len)))
    else Zero
  }

  /** The body velocity after the first `k` bones of the pass, starting from `v0`. */
  function VelocityAfterBones(bs: seq<Bone>, k: nat, v0: Vec3, center: Vec3, sphereRadius: real,
                              dt: real, len: Vec3 -> real): Vec3
    requires k <= |bs|
  {
    if k == 0 then v0
    else
      var v := VelocityAfterBones(bs, k - 1, v0, center, sphereRadius, dt, len);
      if Resolvable(bs[k - 1], center, sphereRadius, len)
      then Add(v, BodyImpulse(bs[k - 1], center, sphereRadius, dt, len))
      else v
  }

  /** Some bone among the first `k` penetrates the collider. */
  predicate AnyPenetrates(bs: seq<Bone>, k: nat, center: Vec3, sphereRadius: real, len: Vec3 -> real)
    requires k <= |bs|
  {
    exists j :: 0 <= j < k && Penetrates(bs[j], center, sphereRadius, len)
  }

  lemma AnyPenetratesStep(bs: seq<Bone>, k: nat, center: Vec3, sphereRadius: real, len: Vec3 -> real)
    requires k < |bs|
    ensures AnyPenetrates(bs, k + 1, center, sphereRadius, len) <==>
      AnyPenetrates(bs, k, center, sphereRadius, len) || Penetrates(bs[k], center, sphereRadius, len)
  {
  }

  /** When no bone among the first `k` penetrates, the pass hands the body nothing. */
  lemma {:induction false} NoContactNoImpulse(bs: seq<Bone>, k: nat, v0: Vec3, center: Vec3, sphereRadius: real,
                                              dt: real, len: Vec3 -> real)
    requires k <= |bs| && !AnyPenetrates(bs, k, center, sphereRadius, len)
    ensures VelocityAfterBones(bs, k, v0, center, sphereRadius, dt, len) == v0
    decreases k
  {
    if k > 0 {
      assert !Penetrates(bs[k - 1], center, sphereRadius, len);
      assert !AnyPenetrates(bs, k - 1, center, sphereRadius, len);
      NoContactNoImpulse(bs, k - 1, v0, center, sphereRadius, dt, len);
    }
  }

  /** When no bone penetrates, the per-bone pass leaves the table as it was. */
  lemma NoContactLeavesTable(bs: seq<Bone>, center: Vec3, sphereRadius: real, dt: real, len: Vec3 -> real)
    requires !AnyPenetrates(bs, |bs|, center, sphereRadius, len)
    ensures CollidedTable(bs, center, sphereRadius, dt, len) == bs
  {
    assert forall j :: 0 <= j < |bs| ==> !Penetrates(bs[j], center, sphereRadius, len);
  }

  /**
   * Ground contact: a body below ground level is lifted to exactly zero height and a
   * downward vertical velocity is reflected and attenuated by the restitution factor.
   */
  function GroundContact(position: Vec3, velocity: Vec3): (r: (Vec3, Vec3))
    ensures r.0.y >= 0.0
    ensures r.0.x == position.x && r.0.z == position.z && r.1.x == velocity.x && r.1.z == velocity.z
    ensures position.y >= 0.0 ==> r == (position, velocity)
    ensures position.y < 0.0 ==> r.0.y == 0.0
    ensures position.y < 0.0 && velocity.y < 0.0 ==> r.1.y == GROUND_RESTITUTION * velocity.y && r.1.y > 0.0
    ensures velocity.y >= 0.0 ==> r.1 == velocity
  {
    if position.y < 0.0 then
      (position.(y := 0.0), if velocity.y < 0.0 then velocity.(y := velocity.y * GROUND_RESTITUTION) else velocity)
    else (position, velocity)
  }

  /**
   * A resolved bone lands exactly on the surface of the grown sphere, along its original
   * direction from the centre.
   */
  lemma CollidedBoneLandsOnSurface(bone: Bone, center: Vec3, sphereRadius: real, dt: real, len: Vec3 -> real)
    requires IsNorm(len) && Resolvable(bone, center, sphereRadius, len)
    ensures var v := Sub(bone.position, center);
      var moved := Sub(CollideBone(bone, center, sphereRadius, dt, len).position, center);
      moved == Scale((bone.radius + sphereRadius) / len(v), v) &&
      len(moved) == bone.radius + sphereRadius
  {
    var v := Sub(bone.position, center);
    var d := len(v);
    var combined := bone.radius + sphereRadius;
    var moved := Sub(CollideBone(bone, center, sphereRadius, dt, len).position, center);
    ScaleScale(combined, 1.0 / d, v);
    assert combined * (1.0 / d) == combined / d;
    assert moved == Scale(combined, Scale(1.0 / d, v));
    NormScale(len, combined / d, v);
    assert combined / d * d == combined;
  }

  /** A resolved bone gets `collisionForce * 8 * dt` added to its spring velocity and nothing else moves but its position. */
  lemma CollidedBoneImpulse(bone: Bone, center: Vec3, sphereRadius: real, dt: real, len: Vec3 -> real)
    requires IsNorm(len) && Resolvable(bone, center, sphereRadius, len)
    ensures var r := CollideBone(bone, center, sphereRadius, dt, len);
      var force := CollisionForce(bone, center, sphereRadius, len);
      r.springyVelocity == Add(bone.springyVelocity, Scale(BONE_IMPULSE_SCALE * dt, force)) &&
      BodyImpulse(bone, center, sphereRadius, dt, len) == Scale(BODY_IMPULSE_SCALE * dt, force)
  {
    var force := CollisionForce(bone, center, sphereRadius, len);
    ScaleScale(dt, BONE_IMPULSE_SCALE, force);
    ScaleScale(dt, BODY_IMPULSE_SCALE, force);
  }

  /**
   * The collision force points away from the centre and its size is the penetration
   * depth times the fraction `distance / combinedRadius`.
   */
  lemma CollisionForcePushesOut(bone: Bone, center: Vec3, sphereRadius: real, len: Vec3 -> real)
    requires IsNorm(len) && Resolvable(bone, center, sphereRadius, len)
    ensures var v := Sub(bone.position, center);
      var force := CollisionForce(bone, center, sphereRadius, len);
      var combined := bone.radius + sphereRadius;
      Dot(force, v) > 0.0 &&
      len(force) == (combined - len(v)) * (len(v) / combined)
  {
    var v := Sub(bone.position, center);
    var d := len(v);
    var combined := bone.radius + sphereRadius;
    var pen := 1.0 - d / combined;
    NormAt(len, v);
    PenetrationFraction(d, combined);
    NormScale(len, pen, v);
    ScaledDot(pen, v);
    assert Dot(v, v) == d * d;
    assert d * d > 0.0;
  }

  /** For `0 < d < c`, the fraction `1 - d / c` is positive and `(1 - d / c) * d == (c - d) * (d / c)`. */
  lemma PenetrationFraction(d: real, c: real)
    requires 0.0 < d < c
    ensures 1.0 - d / c > 0.0
    ensures (1.0 - d / c) * d == (c - d) * (d / c)
  {
    var q := d / c;
    assert q * c == d;
    assert (1.0 - q) * c == c - d;
    PositiveFactor(1.0 - q, c);
    calc {
      (c - d) * q;
      c * q - d * q;
      d - d * q;
      (1.0 - q) * d;
    }
  }

  lemma PositiveFactor(a: real, c: real)
    requires c > 0.0 && a * c > 0.0
    ensures a > 0.0
  {
  }

  lemma ScaledDot(k: real, v: Vec3)
    ensures Dot(Scale(k, v), v) == k * Dot(v, v)
  {
  }

  /** A bone at or beyond the combined radius is untouched and hands the body nothing. */
  lemma DistantBoneUntouched(bone: Bone, center: Vec3, sphereRadius: real, dt: real, len: Vec3 -> real)
    requires len(Sub(bone.position, center)) >= bone.radius + sphereRadius
    ensures CollideBone(bone, center, sphereRadius, dt, len) == bone
    ensures BodyImpulse(bone, center, sphereRadius, dt, len) == Zero
  {
  }

  /**
   * The outcome of a tick with contact: springs on (restarted from the collided pose
   * when they were off), gravity added to the pushed velocity, and the ground contact.
   */
  function ContactResponse(collided: seq<Bone>, usingSprings: bool, body: Vec3, pushed: Vec3): (r: Response)
    ensures r.usingSprings && |r.bones| == |collided|
    ensures r.bones == if usingSprings then collided else RestartedSprings(collided)
    ensures r.position == (if body.y < 0.0 then body.(y := 0.0) else body)
    ensures r.position.y >= 0.0
    ensures r.velocity.x == pushed.x && r.velocity.z == pushed.z
    ensures var vy := pushed.y - GRAVITY_IMPULSE;
      r.velocity.y == (if body.y < 0.0 && vy < 0.0 then GROUND_RESTITUTION * vy else vy)
    ensures forall j :: 0 <= j < |collided| ==>
      r.bones[j] == collided[j].(springyPosition := r.bones[j].springyPosition, springyVelocity := r.bones[j].springyVelocity)
  {
    var landed := GroundContact(body, Add(pushed, GRAVITY));
    Response(if usingSprings then collided else RestartedSprings(collided), landed.0, landed.1, true)
  }

  /**
   * The whole collision test. Only when the body's bounding sphere overlaps the collider
   * is the per-bone pass run; if some bone penetrated, springs are switched on (restarted
   * from the collided pose when they were off), gravity is added and the ground contact
   * applied. A tick in which no bone penetrates changes nothing.
   */
  function SphereResponse(bs: seq<Bone>, body: Vec3, velocity: Vec3, usingSprings: bool,
                          center: Vec3, sphereRadius: real, dt: real, len: Vec3 -> real): (r: Response)
    ensures |r.bones| == |bs|
    ensures BodyNearSphere(body, center, sphereRadius, len) && AnyPenetrates(bs, |bs|, center, sphereRadius, len) ==>
      r.position.y >= 0.0 && r.position.x == body.x && r.position.z == body.z
    ensures forall j :: 0 <= j < |bs| ==>
      r.bones[j] == bs[j].(position := r.bones[j].position, springyPosition := r.bones[j].springyPosition,
                           springyVelocity := r.bones[j].springyVelocity)
  {
    if !BodyNearSphere(body, center, sphereRadius, len) then Response(bs, body, velocity, usingSprings)
    else
      var collided := CollidedTable(bs, center, sphereRadius, dt, len);
      var pushed := VelocityAfterBones(bs, |bs|, velocity, center, sphereRadius, dt, len);
      if AnyPenetrates(bs, |bs|, center, sphereRadius, len) then
        ContactResponse(collided, usingSprings, body, pushed)
      else
        Response(collided, body, pushed, usingSprings)
  }

  /** A tick in which the body is near the collider and some bone penetrates it ends with the contact response. */
  lemma ContactTickResponse(bs: seq<Bone>, body: Vec3, velocity: Vec3, usingSprings: bool,
                            center: Vec3, sphereRadius: real, dt: real, len: Vec3 -> real)
    requires BodyNearSphere(body, center, sphereRadius, len) && AnyPenetrates(bs, |bs|, center, sphereRadius, len)
    ensures SphereResponse(bs, body, velocity, usingSprings, center, sphereRadius, dt, len) ==
      ContactResponse(CollidedTable(bs, center, sphereRadius, dt, len), usingSprings, body,
                      VelocityAfterBones(bs, |bs|, velocity, center, sphereRadius, dt, len))
  {
  }

  /** A tick in which the body is far from the collider, or no bone penetrates it, changes nothing. */
  lemma NoContactChangesNothing(bs: seq<Bone>, body: Vec3, velocity: Vec3, usingSprings: bool,
                                center: Vec3, sphereRadius: real, dt: real, len: Vec3 -> real)
    requires !BodyNearSphere(body, center, sphereRadius, len) || !AnyPenetrates(bs, |bs|, center, sphereRadius, len)
    ensures SphereResponse(bs, body, velocity, usingSprings, center, sphereRadius, dt, len) ==
      Response(bs, body, velocity, usingSprings)
  {
    if BodyNearSphere(body, center, sphereRadius, len) {
      NoContactNoImpulse(bs, |bs|, velocity, center, sphereRadius, dt, len);
      NoContactLeavesTable(bs, center, sphereRadius, dt, len);
    }
  }

  /** Springs run after the test exactly when they ran before it or some bone penetrated the collider. */
  lemma ContactSwitchesSpringsOn(bs: seq<Bone>, body: Vec3, velocity: Vec3, usingSprings: bool,
                                 center: Vec3, sphereRadius: real, dt: real, len: Vec3 -> real)
    ensures SphereResponse(bs, body, velocity, usingSprings, center, sphereRadius, dt, len).usingSprings <==>
      usingSprings || (BodyNearSphere(body, center, sphereRadius, len) && AnyPenetrates(bs, |bs|, center, sphereRadius, len))
  {
  }
}
