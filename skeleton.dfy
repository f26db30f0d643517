/**
 * The avatar's fixed bone table: bone identifiers, the parent link of every bone,
 * the rest offset of every bone from its parent, and the rigid (forward-kinematics)
 * pose that the table and a body orientation determine.
 *
 * Bones are addressed by small integers in the order of the bone enumeration;
 * `NULL_BONE` is the sentinel parent of a root.
 */
module Skeleton {
  import opened Vectors

  const NULL_BONE: int := -1
  const PELVIS_SPINE: int := 0
  const MID_SPINE: int := 1
  const CHEST_SPINE: int := 2
  const NECK: int := 3
  const HEAD: int := 4
  const LEFT_CHEST: int := 5
  const LEFT_SHOULDER: int := 6
  const LEFT_UPPER_ARM: int := 7
  const LEFT_FOREARM: int := 8
  const LEFT_HAND: int := 9
  const RIGHT_CHEST: int := 10
  const RIGHT_SHOULDER: int := 11
  const RIGHT_UPPER_ARM: int := 12
  const RIGHT_FOREARM: int := 13
  const RIGHT_HAND: int := 14
  const LEFT_PELVIS: int := 15
  const LEFT_THIGH: int := 16
  const LEFT_SHIN: int := 17
  const LEFT_FOOT: int := 18
  const RIGHT_PELVIS: int := 19
  const RIGHT_THIGH: int := 20
  const RIGHT_SHIN: int := 21
  const RIGHT_FOOT: int := 22
  const NUM_BONES: int := 23

  /** Collision radius and corrective-spring stiffness every bone starts with. */
  const DEFAULT_BONE_RADIUS: real := 0.02
  const DEFAULT_SPRING_TIGHTNESS: real := 4.0

  /** One entry of the bone table, with its rigid pose and its spring-follow state. */
  datatype Bone = Bone(
    parent: int,
    defaultPose: Vec3,
    length: real,
    radius: real,
    springTightness: real,
    position: Vec3,
    orientation: Basis,
    springyPosition: Vec3,
    springyVelocity: Vec3)

  predicate IsBone(b: int) { 0 <= b < NUM_BONES }

  /** The parent link of every bone; the pelvis spine is the only root and every parent comes earlier. */
  function ParentOf(b: int): (p: int)
    requires IsBone(b)
    ensures p == NULL_BONE <==> b == PELVIS_SPINE
    ensures p != NULL_BONE ==> 0 <= p < b
  {
    match b
    case 0 => NULL_BONE
    case 1 => PELVIS_SPINE
    case 2 => MID_SPINE
    case 3 => CHEST_SPINE
    case 4 => NECK
    case 5 => MID_SPINE
    case 6 => LEFT_CHEST
    case 7 => LEFT_SHOULDER
    case 8 => LEFT_UPPER_ARM
    case 9 => LEFT_FOREARM
    case 10 => MID_SPINE
    case 11 => RIGHT_CHEST
    case 12 => RIGHT_SHOULDER
    case 13 => RIGHT_UPPER_ARM
    case 14 => RIGHT_FOREARM
    case 15 => PELVIS_SPINE
    case 16 => LEFT_PELVIS
    case 17 => LEFT_THIGH
    case 18 => LEFT_SHIN
    case 19 => PELVIS_SPINE
    case 20 => RIGHT_PELVIS
    case 21 => RIGHT_THIGH
    case _ => RIGHT_SHIN
  }

  /** The rest offset of every bone from its parent, in the parent's axes. */
  function DefaultPose(b: int): Vec3
    requires IsBone(b)
  {
    match b
    case 0 => Vec3(0.0, 0.3, 0.0)
    case 1 => Vec3(0.0, 0.1, 0.0)
    case 2 => Vec3(0.0, 0.1, 0.0)
    case 3 => Vec3(0.0, 0.06, 0.0)
    case 4 => Vec3(0.0, 0.06, 0.0)
    case 5 => Vec3(-0.06, 0.06, 0.0)
    case 6 => Vec3(-0.03, 0.0, 0.0)
    case 7 => Vec3(0.0, -0.12, 0.0)
    case 8 => Vec3(0.0, -0.1, 0.0)
    case 9 => Vec3(0.0, -0.05, 0.0)
    case 10 => Vec3(0.06, 0.06, 0.0)
    case 11 => Vec3(0.03, 0.0, 0.0)
    case 12 => Vec3(0.0, -0.12, 0.0)
    case 13 => Vec3(0.0, -0.1, 0.0)
    case 14 => Vec3(0.0, -0.05, 0.0)
    case 15 => Vec3(-0.05, 0.0, 0.0)
    case 16 => Vec3(0.0, -0.15, 0.0)
    case 17 => Vec3(0.0, -0.15, 0.0)
    case 18 => Vec3(0.0, 0.0, 0.04)
    case 19 => Vec3(0.05, 0.0, 0.0)
    case 20 => Vec3(0.0, -0.15, 0.0)
    case 21 => Vec3(0.0, -0.15, 0.0)
    case _ => Vec3(0.0, 0.0, 0.04)
  }

  /** The bone table entry a freshly initialised skeleton holds for bone `b`, before lengths are computed. */
  function InitialBone(b: int): Bone
    requires IsBone(b)
  {
    Bone(ParentOf(b), DefaultPose(b), 0.0, DEFAULT_BONE_RADIUS, DEFAULT_SPRING_TIGHTNESS,
         Zero, Basis(Vec3(1.0, 0.0, 0.0), Vec3(0.0, 1.0, 0.0), Vec3(0.0, 0.0, 1.0)), Zero, Zero)
  }

  /** Bone `b`'s entry agrees with the table: its parent, rest offset, derived length and default radius and stiffness. */
  predicate InTable(bone: Bone, b: int, len: Vec3 -> real)
    requires IsBone(b)
  {
    bone.parent == ParentOf(b) && bone.defaultPose == DefaultPose(b) && bone.length == len(DefaultPose(b)) &&
    bone.radius == DEFAULT_BONE_RADIUS && bone.springTightness == DEFAULT_SPRING_TIGHTNESS
  }

  /** The maximum reach of the right arm: upper-arm, forearm and hand lengths added up. */
  function ArmLength(len: Vec3 -> real): real {
    len(DefaultPose(RIGHT_UPPER_ARM)) + len(DefaultPose(RIGHT_FOREARM)) + len(DefaultPose(RIGHT_HAND))
  }

  /** With the Euclidean length the arm reaches 0.12 + 0.1 + 0.05. */
  lemma ArmLengthValue(len: Vec3 -> real)
    requires IsNorm(len)
    ensures ArmLength(len) == 0.27
  {
    NormOfAxisVector(len, 0.0, -0.12, 0.0);
    NormOfAxisVector(len, 0.0, -0.1, 0.0);
    NormOfAxisVector(len, 0.0, -0.05, 0.0);
  }

  /**
   * The rigid world position of bone `b`: the body position for the root, otherwise
   * the parent's rigid position, plus the bone's rest offset projected onto the body axes.
   */
  function RigidPosition(b: int, basis: Basis, body: Vec3): Vec3
    requires IsBone(b)
    decreases b
  {
    var base := if ParentOf(b) == NULL_BONE then body else RigidPosition(ParentOf(b), basis, body);
    Add(base, Project(DefaultPose(b), basis))
  }

  /** The rigid pose moves with the body: translating the body translates every bone by the same amount. */
  lemma {:induction false} RigidPositionTranslates(b: int, basis: Basis, body: Vec3, t: Vec3)
    requires IsBone(b)
    ensures RigidPosition(b, basis, Add(body, t)) == Add(RigidPosition(b, basis, body), t)
    decreases b
  {
    if ParentOf(b) != NULL_BONE {
      RigidPositionTranslates(ParentOf(b), basis, body, t);
    }
  }

  /** Number of parent links from `b` up to the root. */
  function Depth(b: int): nat
    requires IsBone(b)
    decreases b
  {
    if ParentOf(b) == NULL_BONE then 0 else 1 + Depth(ParentOf(b))
  }

  /** The bone reached from `b` by following `k` parent links. */
  function Ancestor(b: int, k: nat): (a: int)
    requires IsBone(b) && k <= Depth(b)
    ensures IsBone(a)
    decreases k
  {
    if k == 0 then b else Ancestor(ParentOf(b), k - 1)
  }

  /**
   * The parent table is one tree rooted at the pelvis spine: every chain of parent
   * links ends there, and no bone is its own proper ancestor.
   */
  lemma {:induction false} AncestorChainEndsAtPelvis(b: int, k: nat)
    requires IsBone(b) && k <= Depth(b)
    ensures Ancestor(b, Depth(b)) == PELVIS_SPINE
    ensures 0 < k ==> Ancestor(b, k) < b
    decreases b
  {
    if ParentOf(b) != NULL_BONE {
      AncestorChainEndsAtPelvis(ParentOf(b), if k == 0 then 0 else k - 1);
    }
  }

  /** A bone some other bone names as its parent. */
  predicate HasChild(p: int) {
    exists c :: 0 <= c < NUM_BONES && ParentOf(c) == p
  }

  /** Exactly the head, the two hands and the two feet are leaves of the tree. */
  lemma LeavesOfTheTree(p: int)
    requires IsBone(p)
    ensures !HasChild(p) <==> p in {HEAD, LEFT_HAND, RIGHT_HAND, LEFT_FOOT, RIGHT_FOOT}
  {
    if p !in {HEAD, LEFT_HAND, RIGHT_HAND, LEFT_FOOT, RIGHT_FOOT} {
      var c := match p
        case 0 => MID_SPINE
        case 1 => CHEST_SPINE
        case 2 => NECK
        case 3 => HEAD
        case 5 => LEFT_SHOULDER
        case 6 => LEFT_UPPER_ARM
        case 7 => LEFT_FOREARM
        case 8 => LEFT_HAND
        case 10 => RIGHT_SHOULDER
        case 11 => RIGHT_UPPER_ARM
        case 12 => RIGHT_FOREARM
        case 13 => RIGHT_HAND
        case 15 => LEFT_THIGH
        case 16 => LEFT_SHIN
        case 17 => LEFT_FOOT
        case 19 => RIGHT_THIGH
        case 20 => RIGHT_SHIN
        case _ => RIGHT_FOOT;
      assert ParentOf(c) == p;
    }
  }
}
