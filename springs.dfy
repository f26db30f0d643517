/**
 * The spring-follow integrator: one pass over the bone table, in bone order, that
 * moves every bone's spring position toward its structural rest length from its
 * parent and toward its rigid position, then damps and integrates with a unit step.
 *
 * `SpringPass(bs, k, ...)` is the table after the first `k` bones of the pass.
 */
module Springs {
  import opened Vectors
  import opened Skeleton

  /** Every parent link is the null sentinel or names an earlier bone of the table. */
  predicate ParentsPrecede(bs: seq<Bone>) {
    forall b :: 0 <= b < |bs| ==> bs[b].parent == NULL_BONE || 0 <= bs[b].parent < b
  }

  /** Two bones alike in everything but their spring-follow state (spring position and velocity). */
  predicate SameBoneRig(x: Bone, y: Bone) {
    y.parent == x.parent && y.defaultPose == x.defaultPose && y.length == x.length &&
    y.radius == x.radius && y.springTightness == x.springTightness &&
    y.position == x.position && y.orientation == x.orientation
  }

  /** `c` differs from `a` at most in the spring-follow state of its bones. */
  predicate SameRig(a: seq<Bone>, c: seq<Bone>) {
    |a| == |c| && forall j :: 0 <= j < |a| ==> SameBoneRig(a[j], c[j])
  }

  /** Two tables with every bone in the same place, facing the same way. */
  predicate SamePose(a: seq<Bone>, c: seq<Bone>) {
    |a| == |c| && forall j :: 0 <= j < |a| ==> c[j].position == a[j].position && c[j].orientation == a[j].orientation
  }

  /** Tables with the same rig have the same pose. */
  lemma SameRigKeepsPose(a: seq<Bone>, c: seq<Bone>)
    requires SameRig(a, c)
    ensures SamePose(a, c)
  {
  }

  /** Every bone's spring position restarted at its rigid position, at rest. */
  function RestartedSprings(bs: seq<Bone>): (r: seq<Bone>)
    ensures |r| == |bs|
    ensures forall j :: 0 <= j < |r| ==> r[j].springyPosition == r[j].position && r[j].springyVelocity == Zero
  {
    seq(|bs|, j requires 0 <= j < |bs| => bs[j].(springyPosition := bs[j].position, springyVelocity := Zero))
  }

  /** A restart touches only the spring-follow state. */
  lemma RestartKeepsRig(bs: seq<Bone>)
    ensures SameRig(bs, RestartedSprings(bs))
  {
  }

  /** Right after a restart every spring sits on its bone's position, feels no corrective pull and does not move. */
  lemma RestartedSpringsAreAtRest(bs: seq<Bone>, dt: real)
    ensures var r := RestartedSprings(bs);
      forall j :: 0 <= j < |r| ==>
        r[j].springyPosition == r[j].position && CorrectivePull(r[j], dt) == Zero && r[j].springyVelocity == Zero
  {
    var r := RestartedSprings(bs);
    forall j | 0 <= j < |r|
      ensures CorrectivePull(r[j], dt) == Zero
    {
      assert Sub(r[j].position, r[j].springyPosition) == Zero;
    }
  }

  /** From the parent's spring position (the body position for a root) to the bone's. */
  function SpringVector(bs: seq<Bone>, b: int, body: Vec3): Vec3
    requires 0 <= b < |bs| && ParentsPrecede(bs)
  {
    var p := bs[b].parent;
    Sub(bs[b].springyPosition, if p == NULL_BONE then body else bs[p].springyPosition)
  }

  /**
   * Multiplicative damping by `1 - decayRate * dt`, or zero once that factor is not
   * positive. For a non-negative decay the result is the velocity scaled by a factor
   * in `[0, 1]`: damping never speeds a spring up or turns it around.
   */
  function Damp(v: Vec3, decayRate: real, dt: real): (r: Vec3)
    ensures 0.0 <= decayRate * dt ==> exists k :: 0.0 <= k <= 1.0 && r == Scale(k, v)
  {
    var decay := 1.0 - decayRate * dt;
    if decay > 0.0 then Scale(decay, v)
    else assert Zero == Scale(0.0, v); Zero
  }

  /** With a non-negative decay, damping never lengthens the velocity and never reverses it. */
  lemma DampNeverSpeedsUp(v: Vec3, decayRate: real, dt: real, len: Vec3 -> real)
    requires IsNorm(len) && 0.0 <= decayRate * dt
    ensures len(Damp(v, decayRate, dt)) <= len(v)
    ensures Dot(Damp(v, decayRate, dt), v) >= 0.0
  {
    var decay := 1.0 - decayRate * dt;
    var k := if decay > 0.0 then decay else 0.0;
    assert Damp(v, decayRate, dt) == Scale(k, v);
    NormScale(len, k, v);
    NormAt(len, v);
    assert Dot(Scale(k, v), v) == k * Dot(v, v);
    assert v.x * v.x + v.y * v.y + v.z * v.z >= 0.0;
  }

  /** The corrective pull of a bone's spring position toward its rigid position. */
  function CorrectivePull(bone: Bone, dt: real): Vec3 {
    Scale(dt, Scale(bone.springTightness, Sub(bone.position, bone.springyPosition)))
  }

  /** The structural impulse along the spring direction, `(L - rest) * springForce * dt` in size. */
  function StructuralImpulse(sv: Vec3, rest: real, springForce: real, dt: real, len: Vec3 -> real): Vec3
    requires len(sv) > 0.0
  {
    Scale((len(sv) - rest) * springForce * dt, Scale(1.0 / len(sv), sv))
  }

  /**
   * The structural coupling of bone `b`: when the spring vector has positive length, the
   * structural impulse is taken from `b` and given to its parent; otherwise nothing changes.
   */
  function Coupled(bs: seq<Bone>, b: int, body: Vec3, springForce: real, dt: real, len: Vec3 -> real): (r: seq<Bone>)
    requires 0 <= b < |bs| && ParentsPrecede(bs)
    ensures |r| == |bs|
    ensures forall j :: 0 <= j < |bs| ==> SameBoneRig(bs[j], r[j]) && r[j].springyPosition == bs[j].springyPosition
    ensures forall j :: 0 <= j < |bs| && j != b && j != bs[b].parent ==> r[j] == bs[j]
  {
    var p := bs[b].parent;
    var sv := SpringVector(bs, b, body);
    if len(sv) > 0.0 then
      var impulse := StructuralImpulse(sv, bs[b].length, springForce, dt, len);
      var pulled := bs[b := bs[b].(springyVelocity := Sub(bs[b].springyVelocity, impulse))];
      if p != NULL_BONE then pulled[p := pulled[p].(springyVelocity := Add(pulled[p].springyVelocity, impulse))]
      else pulled
    else bs
  }

  /** A bone after its corrective pull and damping, its spring position advanced by the damped velocity. */
  function Advanced(bone: Bone, decayRate: real, dt: real): Bone {
    var damped := Damp(Add(bone.springyVelocity, CorrectivePull(bone, dt)), decayRate, dt);
    bone.(springyVelocity := damped, springyPosition := Add(bone.springyPosition, damped))
  }

  /**
   * Bone `b`'s step of the pass: the structural coupling, then the corrective pull is
   * added, the velocity damped, and the spring position advanced by it.
   */
  function SpringStep(bs: seq<Bone>, b: int, body: Vec3, springForce: real, decayRate: real,
                      dt: real, len: Vec3 -> real): (r: seq<Bone>)
    requires 0 <= b < |bs| && ParentsPrecede(bs)
    ensures SameRig(bs, r)
    ensures forall j :: 0 <= j < |bs| && j != b && j != bs[b].parent ==> r[j] == bs[j]
    ensures forall j :: 0 <= j < |bs| && j != b ==> r[j].springyPosition == bs[j].springyPosition
    ensures r[b].springyPosition == Add(bs[b].springyPosition, r[b].springyVelocity)
  {
    var coupled := Coupled(bs, b, body, springForce, dt, len);
    coupled[b := Advanced(coupled[b], decayRate, dt)]
  }

  /** The bone table after the first `k` bones of the pass; bones not yet reached are untouched. */
  function SpringPass(bs: seq<Bone>, k: nat, body: Vec3, springForce: real, decayRate: real,
                      dt: real, len: Vec3 -> real): (r: seq<Bone>)
    requires k <= |bs| && ParentsPrecede(bs)
    ensures SameRig(bs, r) && ParentsPrecede(r)
    ensures forall j :: k <= j < |bs| ==> r[j] == bs[j]
    decreases k
  {
    if k == 0 then bs
    else SpringStep(SpringPass(bs, k - 1, body, springForce, decayRate, dt, len), k - 1, body, springForce, decayRate, dt, len)
  }

  /**
   * With a zero-length spring vector the structural spring is skipped: only bone `b`
   * changes, by the damped corrective pull alone.
   */
  lemma ZeroSpringLengthSkipsStructural(bs: seq<Bone>, b: int, body: Vec3, springForce: real,
                                        decayRate: real, dt: real, len: Vec3 -> real)
    requires 0 <= b < |bs| && ParentsPrecede(bs)
    requires len(SpringVector(bs, b, body)) == 0.0
    ensures var r := SpringStep(bs, b, body, springForce, decayRate, dt, len);
      (forall j :: 0 <= j < |bs| && j != b ==> r[j] == bs[j]) &&
      r[b].springyVelocity == Damp(Add(bs[b].springyVelocity, CorrectivePull(bs[b], dt)), decayRate, dt)
  {
    var damped := Damp(Add(bs[b].springyVelocity, CorrectivePull(bs[b], dt)), decayRate, dt);
    assert SpringStep(bs, b, body, springForce, decayRate, dt, len)
        == bs[b := bs[b].(springyVelocity := damped, springyPosition := Add(bs[b].springyPosition, damped))];
  }

  /**
   * The coupling obeys action and reaction: with a positive spring length the parent
   * gains exactly the impulse bone `b` loses before its own correction and damping.
   */
  lemma StructuralCouplingIsEqualAndOpposite(bs: seq<Bone>, b: int, body: Vec3, springForce: real,
                                             decayRate: real, dt: real, len: Vec3 -> real)
    requires 0 <= b < |bs| && ParentsPrecede(bs) && bs[b].parent != NULL_BONE
    requires len(SpringVector(bs, b, body)) > 0.0
    ensures var impulse := StructuralImpulse(SpringVector(bs, b, body), bs[b].length, springForce, dt, len);
      var r := SpringStep(bs, b, body, springForce, decayRate, dt, len);
      r[bs[b].parent].springyVelocity == Add(bs[bs[b].parent].springyVelocity, impulse) &&
      r[b].springyVelocity ==
        Damp(Add(Sub(bs[b].springyVelocity, impulse), CorrectivePull(bs[b], dt)), decayRate, dt)
  {
    var p := bs[b].parent;
    var impulse := StructuralImpulse(SpringVector(bs, b, body), bs[b].length, springForce, dt, len);
    var pulled := bs[b := bs[b].(springyVelocity := Sub(bs[b].springyVelocity, impulse))];
    var coupled := pulled[p := pulled[p].(springyVelocity := Add(pulled[p].springyVelocity, impulse))];
    var damped := Damp(Add(coupled[b].springyVelocity, CorrectivePull(bs[b], dt)), decayRate, dt);
    assert SpringStep(bs, b, body, springForce, decayRate, dt, len)
        == coupled[b := coupled[b].(springyVelocity := damped, springyPosition := Add(coupled[b].springyPosition, damped))];
  }

  /**
   * The root's coupling: its spring is measured to the body position, and with a positive
   * spring length the root loses the structural impulse while no other bone gains it.
   */
  lemma RootCouplingLosesImpulse(bs: seq<Bone>, b: int, body: Vec3, springForce: real,
                                 decayRate: real, dt: real, len: Vec3 -> real)
    requires 0 <= b < |bs| && ParentsPrecede(bs) && bs[b].parent == NULL_BONE
    requires len(SpringVector(bs, b, body)) > 0.0
    ensures SpringVector(bs, b, body) == Sub(bs[b].springyPosition, body)
    ensures var impulse := StructuralImpulse(SpringVector(bs, b, body), bs[b].length, springForce, dt, len);
      var r := SpringStep(bs, b, body, springForce, decayRate, dt, len);
      (forall j :: 0 <= j < |bs| && j != b ==> r[j] == bs[j]) &&
      r[b].springyVelocity ==
        Damp(Add(Sub(bs[b].springyVelocity, impulse), CorrectivePull(bs[b], dt)), decayRate, dt) &&
      r[b].springyPosition == Add(bs[b].springyPosition, r[b].springyVelocity)
  {
    var impulse := StructuralImpulse(SpringVector(bs, b, body), bs[b].length, springForce, dt, len);
    var pulled := bs[b := bs[b].(springyVelocity := Sub(bs[b].springyVelocity, impulse))];
    var damped := Damp(Add(pulled[b].springyVelocity, CorrectivePull(bs[b], dt)), decayRate, dt);
    assert SpringStep(bs, b, body, springForce, decayRate, dt, len)
        == pulled[b := pulled[b].(springyVelocity := damped, springyPosition := Add(pulled[b].springyPosition, damped))];
  }

  /** The structural impulse has size `|L - rest| * |springForce * dt|` and points along the spring. */
  lemma StructuralImpulseSize(sv: Vec3, rest: real, springForce: real, dt: real, len: Vec3 -> real)
    requires IsNorm(len) && len(sv) > 0.0
    ensures len(StructuralImpulse(sv, rest, springForce, dt, len)) == Abs(len(sv) - rest) * Abs(springForce * dt)
    ensures StructuralImpulse(sv, rest, springForce, dt, len) == Scale((len(sv) - rest) * springForce * dt / len(sv), sv)
  {
    StructuralImpulseLength(sv, rest, springForce, dt, len);
    StructuralImpulseAlongSpring(sv, rest, springForce, dt, len);
  }

  lemma StructuralImpulseLength(sv: Vec3, rest: real, springForce: real, dt: real, len: Vec3 -> real)
    requires IsNorm(len) && len(sv) > 0.0
    ensures len(StructuralImpulse(sv, rest, springForce, dt, len)) == Abs(len(sv) - rest) * Abs(springForce * dt)
  {
    var l := len(sv);
    var k := (l - rest) * springForce * dt;
    NormalizedHasUnitLength(len, sv);
    ScaledUnitLength(len, k, Scale(1.0 / l, sv));
    AbsOfTriple(l - rest, springForce, dt);
    assert StructuralImpulse(sv, rest, springForce, dt, len) == Scale(k, Scale(1.0 / l, sv));
  }

  lemma StructuralImpulseAlongSpring(sv: Vec3, rest: real, springForce: real, dt: real, len: Vec3 -> real)
    requires len(sv) > 0.0
    ensures StructuralImpulse(sv, rest, springForce, dt, len) == Scale((len(sv) - rest) * springForce * dt / len(sv), sv)
  {
    var l := len(sv);
    var k := (l - rest) * springForce * dt;
    ScaleScale(k, 1.0 / l, sv);
    TimesInverse(k, l);
  }

  lemma ScaledUnitLength(len: Vec3 -> real, k: real, u: Vec3)
    requires IsNorm(len) && len(u) == 1.0
    ensures len(Scale(k, u)) == Abs(k)
  {
    NormScale(len, k, u);
  }

  lemma AbsOfTriple(a: real, b: real, c: real)
    ensures Abs(a * b * c) == Abs(a) * Abs(b * c)
  {
    assert a * b * c == a * (b * c);
  }

  lemma TimesInverse(k: real, l: real)
    requires l != 0.0
    ensures k * (1.0 / l) == k / l
  {
  }

  /** No bone after `j` among the first `k` names `j` as its parent. */
  predicate NoLaterChild(bs: seq<Bone>, j: int, k: int)
    requires 0 <= j && k <= |bs|
  {
    forall c :: j < c < k ==> bs[c].parent != j
  }

  /**
   * Over-damped pass (`1 - decayRate * dt <= 0`): every velocity is zeroed just before
   * its bone's position step, so no spring position moves; a bone ends with zero velocity
   * unless a later bone of the pass is its child and handed it a coupling impulse.
   */
  lemma {:induction false} OverDampedPassFreezes(bs: seq<Bone>, k: nat, body: Vec3, springForce: real,
                                                 decayRate: real, dt: real, len: Vec3 -> real)
    requires k <= |bs| && ParentsPrecede(bs) && 1.0 - decayRate * dt <= 0.0
    ensures var r := SpringPass(bs, k, body, springForce, decayRate, dt, len);
      forall j :: 0 <= j < |bs| ==> r[j].springyPosition == bs[j].springyPosition
    ensures var r := SpringPass(bs, k, body, springForce, decayRate, dt, len);
      forall j :: 0 <= j < k && NoLaterChild(bs, j, k) ==> r[j].springyVelocity == Zero
    decreases k
  {
    if k > 0 {
      OverDampedPassFreezes(bs, k - 1, body, springForce, decayRate, dt, len);
      var s := SpringPass(bs, k - 1, body, springForce, decayRate, dt, len);
      var r := SpringStep(s, k - 1, body, springForce, decayRate, dt, len);
      assert r == SpringPass(bs, k, body, springForce, decayRate, dt, len);
      assert s[k - 1] == bs[k - 1];
      assert r[k - 1].springyVelocity == Zero;
      forall j | 0 <= j < k && NoLaterChild(bs, j, k)
        ensures r[j].springyVelocity == Zero
      {
        if j < k - 1 {
          assert bs[k - 1].parent != j;
          assert r[j] == s[j];
        }
      }
    }
  }

  /**
   * The pass does not zero every velocity when over-damped: a two-bone chain whose child
   * is stretched to twice its rest length leaves the root with the child's coupling impulse.
   */
  lemma OverDampedParentKeepsImpulse(len: Vec3 -> real)
    requires IsNorm(len)
    ensures
      var r := SpringPass(StretchedChain(), 2, Zero, 6.0, 16.0, 1.0, len);
      r[0].springyVelocity == Vec3(0.0, 3.0, 0.0) && r[1].springyVelocity == Zero
  {
    NormOfAxisVector(len, 0.0, 0.0, 0.0);
    NormOfAxisVector(len, 0.0, 1.0, 0.0);
    StretchedChainPass(len);
  }

  /** A root at the body position and a child one unit above it with rest length one half. */
  function StretchedChain(): seq<Bone> {
    [Bone(NULL_BONE, Zero, 0.0, 0.0, 0.0, Zero, Basis(Zero, Zero, Zero), Zero, Zero),
     Bone(0, Zero, 0.5, 0.0, 0.0, Zero, Basis(Zero, Zero, Zero), Vec3(0.0, 1.0, 0.0), Zero)]
  }

  lemma StretchedChainPass(len: Vec3 -> real)
    requires len(Zero) == 0.0 && len(Vec3(0.0, 1.0, 0.0)) == 1.0
    ensures
      var r := SpringPass(StretchedChain(), 2, Zero, 6.0, 16.0, 1.0, len);
      r[0].springyVelocity == Vec3(0.0, 3.0, 0.0) && r[1].springyVelocity == Zero
  {
    var bs := StretchedChain();
    assert SpringVector(bs, 0, Zero) == Zero;
    var s1 := SpringStep(bs, 0, Zero, 6.0, 16.0, 1.0, len);
    assert s1 == bs[0 := bs[0].(springyVelocity := Zero, springyPosition := Add(Zero, Zero))];
    assert SpringPass(bs, 1, Zero, 6.0, 16.0, 1.0, len) == s1;
    assert SpringVector(s1, 1, Zero) == Vec3(0.0, 1.0, 0.0);
    var impulse := StructuralImpulse(Vec3(0.0, 1.0, 0.0), 0.5, 6.0, 1.0, len);
    assert impulse == Vec3(0.0, 3.0, 0.0);
    var s2 := SpringStep(s1, 1, Zero, 6.0, 16.0, 1.0, len);
    assert s2[0].springyVelocity == Add(Zero, impulse);
  }

  /** The table agrees with the fixed skeleton in every bone. */
  predicate IsTable(bs: seq<Bone>, len: Vec3 -> real) {
    |bs| == NUM_BONES && forall b {:trigger InTable(bs[b], b, len)} :: 0 <= b < NUM_BONES ==> InTable(bs[b], b, len)
  }

  lemma TableParentsPrecede(bs: seq<Bone>, len: Vec3 -> real)
    requires IsTable(bs, len)
    ensures ParentsPrecede(bs)
  {
    forall b | 0 <= b < |bs|
      ensures bs[b].parent == NULL_BONE || 0 <= bs[b].parent < b
    {
      assert InTable(bs[b], b, len);
    }
  }

  /** The parent links and rest offsets of a table that agrees with the skeleton. */
  lemma TableLinks(bs: seq<Bone>, len: Vec3 -> real)
    requires IsTable(bs, len)
    ensures forall b :: 0 <= b < NUM_BONES ==> bs[b].parent == ParentOf(b) && bs[b].defaultPose == DefaultPose(b)
  {
    forall b | 0 <= b < NUM_BONES
      ensures bs[b].parent == ParentOf(b) && bs[b].defaultPose == DefaultPose(b)
    {
      assert InTable(bs[b], b, len);
    }
  }

  /** A table whose bones changed only in pose and spring-follow state still agrees with the skeleton. */
  lemma MovedBonesKeepTable(a: seq<Bone>, c: seq<Bone>, len: Vec3 -> real)
    requires IsTable(a, len) && |c| == |a|
    requires forall j :: 0 <= j < |a| ==>
      c[j] == a[j].(position := c[j].position, orientation := c[j].orientation,
                    springyPosition := c[j].springyPosition, springyVelocity := c[j].springyVelocity)
    ensures IsTable(c, len)
  {
    forall b | 0 <= b < NUM_BONES
      ensures InTable(c[b], b, len)
    {
      assert InTable(a[b], b, len);
    }
  }

  /** Changing only the spring-follow state keeps a table agreeing with the skeleton. */
  lemma SameRigKeepsTable(a: seq<Bone>, c: seq<Bone>, len: Vec3 -> real)
    requires IsTable(a, len) && SameRig(a, c)
    ensures IsTable(c, len)
  {
    forall b | 0 <= b < NUM_BONES
      ensures InTable(c[b], b, len)
    {
      assert InTable(a[b], b, len);
    }
  }

  /** A freshly laid-out table, whatever its poses, agrees with the skeleton. */
  lemma LaidOutTableIsTable(bs: seq<Bone>, len: Vec3 -> real)
    requires |bs| == NUM_BONES
    requires forall b :: 0 <= b < NUM_BONES ==>
      bs[b] == InitialBone(b).(length := len(DefaultPose(b)), orientation := bs[b].orientation, position := bs[b].position)
    ensures IsTable(bs, len)
  {
  }

  /** What an over-damped pass leaves: no spring position has moved and every leaf of the tree is at rest. */
  predicate FrozenLeaves(before: seq<Bone>, after: seq<Bone>)
    requires |before| == |after| == NUM_BONES
  {
    (forall j :: 0 <= j < NUM_BONES ==> after[j].springyPosition == before[j].springyPosition) &&
    (forall j :: 0 <= j < NUM_BONES && !HasChild(j) ==> after[j].springyVelocity == Zero)
  }

  /**
   * On the skeleton's table an over-damped pass moves no spring position and leaves
   * every leaf of the tree (head, hands and feet) with zero spring velocity.
   */
  lemma OverDampedTableLeavesStop(bs: seq<Bone>, body: Vec3, springForce: real, decayRate: real,
                                  dt: real, len: Vec3 -> real)
    requires IsTable(bs, len) && 1.0 - decayRate * dt <= 0.0
    ensures ParentsPrecede(bs)
    ensures FrozenLeaves(bs, SpringPass(bs, |bs|, body, springForce, decayRate, dt, len))
  {
    TableParentsPrecede(bs, len);
    OverDampedPassFreezes(bs, |bs|, body, springForce, decayRate, dt, len);
    var r := SpringPass(bs, |bs|, body, springForce, decayRate, dt, len);
    forall j | 0 <= j < NUM_BONES && !HasChild(j)
      ensures r[j].springyVelocity == Zero
    {
      LeafHasNoChildInTable(bs, j, len);
    }
  }

  lemma LeafHasNoChildInTable(bs: seq<Bone>, p: int, len: Vec3 -> real)
    requires IsTable(bs, len) && !HasChild(p)
    ensures 0 <= p < |bs| ==> NoLaterChild(bs, p, |bs|)
  {
    forall c | 0 <= c < |bs|
      ensures bs[c].parent != p
    {
      assert InTable(bs[c], c, len);
    }
  }
}
