/**
 * The hand-reach controller: the hand-movement offset moves the right hand in the body
 * axes (or a handshake snaps it to another avatar's hand), the hand is held within arm's
 * length of the shoulder, and the elbow and wrist are placed from shoulder and hand.
 */
module Reach {
  import opened Vectors

  const ONE_HALF: real := 0.5
  /** The wrist sits this fraction of the way from the elbow to the hand. */
  const WRIST_FRACTION: real := 0.7

  /** The world displacement of a hand offset: sideways along right, `y` mostly forward and half as much up. */
  function HandMovement(offset: Vec3, basis: Basis): Vec3 {
    Add(Add(Scale(offset.x, basis.right), Scale(ONE_HALF, Scale(-offset.y, basis.up))), Scale(-offset.y, basis.front))
  }

  /** Where the hand is headed before the reach limit: moved by the offset, or onto the other avatar's hand while grabbing. */
  function HandTarget(hand: Vec3, offset: Vec3, basis: Basis, grabbing: bool, otherHand: Vec3): Vec3 {
    if grabbing then otherHand else Add(hand, HandMovement(offset, basis))
  }

  /**
   * The reach limit: a hand farther than `maxArm` from the shoulder is pulled back along
   * the same direction to exactly `maxArm`; a nearer one stays where it is.
   */
  function ClampReach(shoulder: Vec3, hand: Vec3, maxArm: real, len: Vec3 -> real): (r: Vec3)
    requires IsNorm(len) && maxArm >= 0.0
    ensures len(Sub(r, shoulder)) <= maxArm
    ensures len(Sub(hand, shoulder)) <= maxArm ==> r == hand
    ensures len(Sub(hand, shoulder)) > maxArm ==>
      Sub(r, shoulder) == Scale(maxArm / len(Sub(hand, shoulder)), Sub(hand, shoulder)) &&
      len(Sub(r, shoulder)) == maxArm
  {
    var arm := Sub(hand, shoulder);
    var distance := len(arm);
    if distance > maxArm then
      var r := Add(shoulder, Scale(maxArm, Scale(1.0 / distance, arm)));
      ScaleScale(maxArm, 1.0 / distance, arm);
      assert Sub(r, shoulder) == Scale(maxArm / distance, arm);
      NormScale(len, maxArm / distance, arm);
      assert maxArm / distance * distance == maxArm;
      r
    else hand
  }

  /**
   * The elbow: the midpoint of the arm plus a bend along `perpendicular` (the source
   * passes `front x arm`), scaled by `(1 - maxArm / distance) / 2`; a zero-length arm
   * has no bend.
   */
  function ElbowPosition(shoulder: Vec3, arm: Vec3, perpendicular: Vec3, maxArm: real, distance: real): Vec3 {
    var bend := if distance != 0.0 then Scale(ONE_HALF, Scale(1.0 - maxArm / distance, perpendicular)) else Zero;
    Add(Add(shoulder, Scale(ONE_HALF, arm)), bend)
  }

  /** The wrist, `WRIST_FRACTION` of the way from the elbow to the hand. */
  function WristPosition(elbow: Vec3, hand: Vec3): (r: Vec3)
    ensures Sub(hand, r) == Scale(1.0 - WRIST_FRACTION, Sub(hand, elbow))
  {
    Add(elbow, Scale(WRIST_FRACTION, Sub(hand, elbow)))
  }

  lemma CrossIsPerpendicular(a: Vec3, b: Vec3)
    ensures Dot(Cross(a, b), b) == 0.0
  {
    assert Dot(Cross(a, b), b)
        == (a.y * b.z) * b.x - (a.z * b.y) * b.x + (a.z * b.x) * b.y - (a.x * b.z) * b.y
           + (a.x * b.y) * b.z - (a.y * b.x) * b.z;
  }

  /** The elbow bends only across the arm: its offset from the arm's midpoint is perpendicular to the arm. */
  lemma ElbowBendIsAcrossTheArm(shoulder: Vec3, arm: Vec3, front: Vec3, maxArm: real, distance: real)
    ensures Dot(Sub(ElbowPosition(shoulder, arm, Cross(front, arm), maxArm, distance), Add(shoulder, Scale(ONE_HALF, arm))), arm) == 0.0
  {
    var k := if distance != 0.0 then ONE_HALF * (1.0 - maxArm / distance) else 0.0;
    var c := Cross(front, arm);
    CrossIsPerpendicular(front, arm);
    if distance != 0.0 {
      ScaleScale(ONE_HALF, 1.0 - maxArm / distance, c);
    }
    var off := Sub(ElbowPosition(shoulder, arm, c, maxArm, distance), Add(shoulder, Scale(ONE_HALF, arm)));
    assert off == Scale(k, c);
    assert Dot(Scale(k, c), arm) == k * Dot(c, arm);
  }

  /** At full extension (`distance == maxArm`) the elbow is exactly the midpoint of the arm. */
  lemma StraightArmAtFullReach(shoulder: Vec3, arm: Vec3, perpendicular: Vec3, maxArm: real)
    requires maxArm != 0.0
    ensures ElbowPosition(shoulder, arm, perpendicular, maxArm, maxArm) == Add(shoulder, Scale(ONE_HALF, arm))
  {
    var f := 1.0 - maxArm / maxArm;
    assert f == 0.0;
    var straight := Scale(f, perpendicular);
    assert straight.x == 0.0 && straight.y == 0.0 && straight.z == 0.0;
  }
}
