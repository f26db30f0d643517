# Avatar simulation core of `Head.cpp`

This project models the per-avatar simulation of the interface client's `Head` class. Each
tick (`simulate`) runs these steps in order:

- a locally driven avatar scans the other avatars for the nearest right hand within arm's reach;
- the sphere collision test runs;
- the 23-bone skeleton is posed rigidly from the body yaw;
- while body springs are on, the right-hand reach controller and the spring-follow pass run;
- the drive keys set the thrust and the turn rate, and the walking/interacting mode is chosen;
- velocity, position and turn rate are integrated and decayed;
- the idle head behaviour runs: rest decay, the eye-contact toggle, gaze and idle noise.

The other operations modelled are:

- the skeleton set-up (`initializeSkeleton`, `calculateBoneLengths`) and `initializeBodySprings`;
- `startHandMovement`, `reset`, `addLean` and `SetNewHeadTarget`;
- the packet counter of `processTransmitterData`.

## Layout

- `vectors.dfy` (`Vectors`): `Vec3` with its operations, the orientation `Basis`, and the norm property.
- `skeleton.dfy` (`Skeleton`): the bone table, meaning parent links, rest offsets and default radius and stiffness. It also holds the rigid pose `RigidPosition` and facts about the bone tree.
- `springs.dfy` (`Springs`): the spring-follow pass as functions on `seq<Bone>`.
- `collision.dfy` (`Collision`): the sphere collision response as functions.
- `reach.dfy` (`Reach`): the hand target, the reach clamp, and the elbow and wrist placement.
- `head_behavior.dfy` (`HeadBehavior`): the head state and the rest, eye-contact and idle-noise steps.
- `locomotion.dfy` (`Locomotion`): drive keys, thrust, motion mode, and the velocity, position and turn integrators, with the closed forms of velocity and position from rest under a constant thrust.
- `avatar.dfy` (`Avatar`): the class `Head`.
  - Its fields are the source's members.
  - The bone table and the other-avatar hand slots are arrays updated in place, as the source does.
  - Every state-changing method is proved against the functions in the modules above.
  - This file also holds the nearest-avatar scan, stated on values as `ScanPrefix`, and the transmitter packet counter as the function `CountPacket` with its sampling windows.

## Modelling decisions

- `glm::length` is a function `len` handed to the constructor, together with the fact
  `IsNorm(len)`: `len(v)` is the non-negative square root of `Dot(v, v)`. Dafny's reals cannot
  construct a square root, so the length is abstract rather than defined.
- The body orientation that `_orientation.yaw(_bodyYaw)` produces is the injected map
  `yawBasis: real -> Basis`. Trigonometry is not modelled.
- Random numbers are inputs. `IdleDraws` has one field per `randFloat()`/`rand()` call site
  of the idle head code. The agent list is the parameter `agents: seq<Agent>`. Each agent
  records whether it is an interface avatar with linked data, and that avatar's right-hand
  position. The clock reading of `processTransmitterData` is the parameter `nowMs`.
- The global `usingBigSphereCollisionTest` is `true` (`interface/src/Head.cpp:36`), so every
  tick runs the collision test.
- The eye-contact toggle flips `eyeContact` and then sets it back to true
  (`interface/src/Head.cpp:502-503`). Contact therefore always holds, and the look-away branch
  is dead. The model keeps the code as written and proves that contact always holds
  (`EyeContactStep`, `Head.Valid`).
- The constructor leaves `_bodyPosition` and `_transmitterTimer` unset (the timer line is
  commented out). The model starts them at the origin and at 0. The timer is always set by the
  first packet before it is read. Hand slots beyond the five test positions start at the origin.
- The transmitter timer starts at packet 1 (`interface/src/Head.cpp:1342-1344`) and the rate is
  sampled when the count reaches 100 (`interface/src/Head.cpp:1346-1351`). The first window
  therefore spans the 99 periods between packet 1 and packet 100, and a steady stream of period
  `p` ms first reads `100000 / (99 p)` Hz; every later window spans 100 periods and reads
  `1000 / p` Hz (`FirstWindow`, `LaterWindow`, `WindowRates`).
- `_handPosition`, the published hand, is never set by the constructor either. `Head.cpp` reads it
  when posing a remote avatar (`interface/src/Head.cpp:1034`) and writes it only through
  `setHandPosition` at the end of the reach controller (`interface/src/Head.cpp:1235`). The model
  starts it at the origin; that is a choice, not something the source fixes. The hand a remote
  avatar publishes is written by code outside `Head.cpp` (the network layer); in the model it is
  whatever the field holds when the tick starts.
- `initializeSkeleton` zeroes every bone's spring position and velocity
  (`interface/src/Head.cpp:901-902`), and the constructor turns the springs on
  (`interface/src/Head.cpp:118`) without calling `initializeBodySprings`. The first spring pass
  therefore pulls every spring from the origin rather than from its bone; the constructor's
  contract records this (`InitialSkeleton`, `InitialSkeletonAtRest`).
- `_bodyPitch` and `_bodyRoll` are modelled: the idle head reads them to set the head angles
  (`interface/src/Head.cpp:457-458`), and nothing writes them after construction.
- The bone enumeration order is taken from the order of `initializeSkeleton`: `PELVIS_SPINE` = 0
  … `RIGHT_FOOT` = 22. `MAX_OTHER_AVATARS` is a constructor parameter of at least 5, because the
  constructor writes five test slots.
- The spring-follow step of a bone is read in two parts:
  - the structural coupling with its parent, `CoupleBone`;
  - the corrective pull, damping and advance, `AdvanceBone`.
  `AdvanceBone` computes the new bone in a local and writes it once. The source updates the
  fields one after another; no other bone is read in between, so the result is the same.
- The scan reads the shoulder position and the arm length once before its loop. Neither
  changes inside the loop.
- Vector lengths are measured with `glm::length` on single-precision floats; the model uses
  exact reals throughout.

## Model

| member | source | states |
|---|---|---|
| Vectors.NormZeroIff | interface/src/Head.cpp:1070-1072 | a length is zero exactly for the zero vector, the case the spring pass skips |
| Vectors.NormScale | interface/src/Head.cpp:1073-1077 | scaling a vector scales its length by the absolute factor |
| Vectors.NormalizedHasUnitLength | interface/src/Head.cpp:1073 | a vector divided by its non-zero length has length one |
| Vectors.NormIsRoot | interface/src/Head.cpp:343 | any non-negative root of `v·v` is the length of `v` |
| Vectors.NormOfAxisVector | interface/src/Head.cpp:1001-1010 | the length of a vector along one axis is the size of that component |
| Vectors.ContractionShrinks | interface/src/Head.cpp:463-464 | a factor strictly between -1 and 1 never grows a value and shrinks any non-zero one |
| Skeleton.ParentOf | interface/src/Head.cpp:920-958 | the pelvis spine is the only root and every parent precedes its child |
| Skeleton.DefaultPose | interface/src/Head.cpp:963-985 | defines the rest offset of every bone from its parent (no ensures; `ArmLengthValue`, `TableLinks` and `Head.LayOutBoneTable` use it) |
| Skeleton.InitialBone | interface/src/Head.cpp:897-911 | defines the entry every bone is reset to: its parent and rest offset, zero length, default radius and stiffness, identity orientation, position and spring state at the origin (no ensures; `Head.LayOutBoneTable` and `Head.constructor` state the table it builds) |
| Skeleton.ArmLengthValue | interface/src/Head.cpp:1006-1009 | the arm's reach is upper arm + forearm + hand = 0.27 |
| Skeleton.RigidPositionTranslates | interface/src/Head.cpp:1012-1048 | translating the body translates every rigidly posed bone by the same amount; this is the partner of `RigidPosition` |
| Skeleton.RigidPosition | interface/src/Head.cpp:1022-1046 | defines the rigid world position of a bone: the body position for the root, else the parent's rigid position, plus the rest offset projected onto the body axes (no ensures; its properties are `RigidPositionTranslates` and `SkeletonIsRigid`) |
| Skeleton.Ancestor | interface/src/Head.cpp:920-958 | following parent links from a bone stays inside the table |
| Skeleton.AncestorChainEndsAtPelvis | interface/src/Head.cpp:920-958 | every chain of parent links ends at the pelvis spine, and no bone is its own proper ancestor |
| Skeleton.LeavesOfTheTree | interface/src/Head.cpp:920-958 | exactly the head, both hands and both feet have no child |
| Springs.RestartedSprings | interface/src/Head.cpp:1051-1056 | a restart keeps the number of bones and leaves every spring on its bone's position with zero spring velocity |
| Springs.RestartKeepsRig | interface/src/Head.cpp:1051-1056 | a restart changes only spring positions and velocities |
| Springs.RestartedSpringsAreAtRest | interface/src/Head.cpp:1051-1056 | right after a restart no bone feels a corrective pull and every spring velocity is zero |
| Springs.Damp | interface/src/Head.cpp:1086-1093 | for a non-negative decay the damped velocity is the old one scaled by some factor in `[0, 1]` |
| Springs.DampNeverSpeedsUp | interface/src/Head.cpp:1086-1093 | with a non-negative decay, damping never lengthens a spring velocity and never reverses it |
| Springs.CorrectivePull | interface/src/Head.cpp:1084 | defines the corrective pull `(position - springyPosition) * springBodyTightness * dt` (no ensures; `RestartedSpringsAreAtRest` and `ZeroSpringLengthSkipsStructural` state its properties) |
| Springs.Advanced | interface/src/Head.cpp:1084-1095 | defines a bone after pull, damping and advance: velocity plus pull, damped, then the spring position moved by the damped velocity (no ensures; its properties are `ZeroSpringLengthSkipsStructural` and `OverDampedPassFreezes`) |
| Springs.Coupled | interface/src/Head.cpp:1061-1082 | the coupling changes only the spring velocities of the bone and its parent |
| Springs.SpringStep | interface/src/Head.cpp:1059-1097 | a bone's step keeps the rig, touches only the bone and its parent, and moves only that bone's spring position, by its new velocity |
| Springs.SpringPass | interface/src/Head.cpp:1059-1097 | the pass keeps the rig and the parent order and leaves unreached bones alone |
| Springs.SameRigKeepsPose | interface/src/Head.cpp:1059-1097 | a table whose rig is kept, as after the spring pass, keeps every bone's position and orientation |
| Springs.ZeroSpringLengthSkipsStructural | interface/src/Head.cpp:1070-1095 | with a zero-length spring vector only the bone changes, by its damped corrective pull |
| Springs.StructuralCouplingIsEqualAndOpposite | interface/src/Head.cpp:1072-1081 | the parent gains exactly the structural impulse the bone loses |
| Springs.RootCouplingLosesImpulse | interface/src/Head.cpp:1063-1095 | the root's spring is measured to the body position; the root loses the structural impulse, then gets the corrective pull, damping and the position step; no other bone changes |
| Springs.StructuralImpulseSize | interface/src/Head.cpp:1070-1077 | the impulse has size `abs(L - rest) * abs(springForce * dt)` and points along the spring |
| Springs.StructuralImpulseLength | interface/src/Head.cpp:1070-1077 | the size half of `StructuralImpulseSize` |
| Springs.StructuralImpulseAlongSpring | interface/src/Head.cpp:1073-1077 | the direction half of `StructuralImpulseSize` |
| Springs.OverDampedPassFreezes | interface/src/Head.cpp:1084-1095 | an over-damped pass moves no spring position; a bone with no later child ends at rest |
| Springs.OverDampedParentKeepsImpulse | interface/src/Head.cpp:1072-1095 | over-damped, a stretched two-bone chain still leaves the root with its child's impulse `(0, 3, 0)` |
| Springs.StretchedChainPass | interface/src/Head.cpp:1059-1097 | the two-bone chain's pass, step by step |
| Springs.TableParentsPrecede | interface/src/Head.cpp:920-958 | a table that agrees with the skeleton has parents before children |
| Springs.TableLinks | interface/src/Head.cpp:920-985 | such a table holds the skeleton's parent links and rest offsets |
| Springs.MovedBonesKeepTable | interface/src/Head.cpp:1012-1097 | changing only poses and spring state keeps a table agreeing with the skeleton |
| Springs.SameRigKeepsTable | interface/src/Head.cpp:1059-1097 | a table with the same rig as one agreeing with the skeleton agrees with it too |
| Springs.LaidOutTableIsTable | interface/src/Head.cpp:895-1010 | a laid-out and measured table agrees with the skeleton |
| Springs.OverDampedTableLeavesStop | interface/src/Head.cpp:1059-1097 | on the skeleton, an over-damped pass moves no spring position and stops the head, hands and feet |
| Springs.LeafHasNoChildInTable | interface/src/Head.cpp:920-958 | a leaf of the tree is no bone's parent in the table |
| Collision.CollideBone | interface/src/Head.cpp:586-606 | a bone of the collision pass changes only its position and spring velocity |
| Collision.CollidedTable | interface/src/Head.cpp:586-606 | the per-bone pass keeps the table's length and changes only positions and spring velocities |
| Collision.AnyPenetratesStep | interface/src/Head.cpp:591-593 | the contact flag after one more bone is the old flag or that bone's penetration |
| Collision.NoContactNoImpulse | interface/src/Head.cpp:586-606 | with no penetrating bone the body velocity gets no impulse |
| Collision.NoContactLeavesTable | interface/src/Head.cpp:586-606 | with no penetrating bone the table is unchanged |
| Collision.GroundContact | interface/src/Head.cpp:622-627 | a body below ground is lifted to height zero, and a downward velocity is reflected and scaled by 0.7; otherwise nothing changes |
| Collision.CollidedBoneLandsOnSurface | interface/src/Head.cpp:596-603 | a resolved bone lands exactly on the grown sphere's surface, along its original direction |
| Collision.CollidedBoneImpulse | interface/src/Head.cpp:598-602 | the bone gets `force * 8 * dt` and the body `force * 18 * dt` |
| Collision.CollisionForcePushesOut | interface/src/Head.cpp:596-599 | the collision force points away from the centre; its size is penetration depth times `distance / combinedRadius` |
| Collision.DistantBoneUntouched | interface/src/Head.cpp:591 | a bone at or beyond the combined radius is untouched and gives no impulse |
| Collision.CollisionForce | interface/src/Head.cpp:596-599 | defines the collision force, the separation vector scaled by the penetration `1 - distance / combinedRadius` (no ensures; `CollisionForcePushesOut` states its direction and size) |
| Collision.BodyImpulse | interface/src/Head.cpp:598-602 | defines the impulse one resolved bone gives the body, `force * 18 * dt`, and zero for any other bone (no ensures; `CollidedBoneImpulse` and `NoContactNoImpulse` state its properties) |
| Collision.VelocityAfterBones | interface/src/Head.cpp:586-606 | defines the body velocity after the first `k` bones of the pass, the sum of their impulses (no ensures; `NoContactNoImpulse` states that with no penetration it is the start velocity) |
| Collision.ContactResponse | interface/src/Head.cpp:608-628 | after contact springs are on, restarted from the collided pose if they were off; the body is lifted to height zero if below ground, x and z kept; velocity is the pushed one minus gravity `0.05` in y, reflected and scaled by 0.7 when the body was below ground and moving down; only spring state of the bones changed |
| Collision.ContactTickResponse | interface/src/Head.cpp:582-630 | a tick near the sphere with a penetrating bone ends with the contact response on the collided table and the pushed velocity |
| Collision.SphereResponse | interface/src/Head.cpp:577-630 | the test keeps the table's length, changes only positions and spring state, and a contacting body ends on or above ground with x and z kept |
| Collision.NoContactChangesNothing | interface/src/Head.cpp:582-630 | a tick far from the sphere, or with no penetration, changes nothing |
| Collision.ContactSwitchesSpringsOn | interface/src/Head.cpp:608-612 | springs run afterwards exactly when they ran before or some bone penetrated |
| Reach.ClampReach | interface/src/Head.cpp:1174-1197 | the hand ends within arm's length; a nearer hand stays; a farther one is pulled back along its direction to exactly arm's length |
| Reach.CrossIsPerpendicular | interface/src/Head.cpp:1220 | `front × arm` is perpendicular to the arm |
| Reach.ElbowBendIsAcrossTheArm | interface/src/Head.cpp:1217-1223 | the elbow's offset from the arm's midpoint is perpendicular to the arm |
| Reach.StraightArmAtFullReach | interface/src/Head.cpp:1193-1222 | at full extension the elbow is the arm's midpoint |
| Reach.HandMovement | interface/src/Head.cpp:1143-1146 | defines the world displacement of the hand offset: `x` along right, `-y / 2` along up and `-y` along front (no ensures; `HandTarget` and `Head.UpdateHandMovement` use it) |
| Reach.HandTarget | interface/src/Head.cpp:1143-1172 | defines where the hand is headed before the reach limit: moved by the hand offset in the body axes, or onto the grabbed avatar's hand (no ensures; `Head.UpdateHandMovement` and `PosedAt` use it) |
| Reach.ElbowPosition | interface/src/Head.cpp:1217-1223 | defines the elbow: the arm's midpoint plus the bend `(1 - maxArm / distance) / 2` along `front × arm` (no ensures; `ElbowBendIsAcrossTheArm` and `StraightArmAtFullReach` state its properties) |
| Reach.WristPosition | interface/src/Head.cpp:1228-1232 | the wrist lies on the elbow-hand segment, short of the hand by 30% of the elbow-to-hand vector |
| HeadBehavior.LeanImpulsesAccumulate | interface/src/Head.cpp:290-294 | two lean impulses lean the head as far as their sum |
| HeadBehavior.HeadRestStep | interface/src/Head.cpp:482-496 | rest decay changes only pitch, yaw, roll and the two leans |
| HeadBehavior.RestDecayShrinksHead | interface/src/Head.cpp:482-487 | without noise a step with `0 < dt < 10` never grows pitch, yaw or roll, and shrinks each of them that is non-zero |
| HeadBehavior.RestDecayShrinksLean | interface/src/Head.cpp:495-496 | a step with `0 < dt < 2/3` never grows either lean |
| HeadBehavior.NoisyHeadApproachesTarget | interface/src/Head.cpp:489-492 | with noise, a step with `0 < dt < 0.2` never widens the gap to the head target |
| HeadBehavior.RecenteredHeadStaysAtRest | interface/src/Head.cpp:238-241 | without noise a reset head is a fixed point of the rest decay |
| HeadBehavior.WithHeadTarget | interface/src/Head.cpp:1322-1325 | defines the head with a new pitch and yaw target (no ensures; `Head.SetNewHeadTarget` and `NoiseTargetsStayInRange` state its use) |
| HeadBehavior.InitialHead | interface/src/Head.cpp:80-115 | defines the head a new avatar starts with: level, eyes in contact with the left eye, brows at -30 pitch and ±20 roll, noise envelope 1, noise off (no ensures; `Head.constructor` states that a new avatar holds it, and `Head.Valid` that it keeps the eye and brow invariants) |
| HeadBehavior.MouthWidthChoice | interface/src/Head.cpp:31 | defines the mouth-width table 0.5, 0.77, 0.3 indexed modulo 3 (no ensures; `IdleNoiseStep` states that new widths come from it) |
| HeadBehavior.BrowPitchAngle | interface/src/Head.cpp:28 | defines the brow-pitch table -70, -60, -50 indexed modulo 3 (no ensures; `IdleNoiseStep` states that new pitches come from it) |
| HeadBehavior.BrowRollAngle | interface/src/Head.cpp:27 | defines the brow-roll table 0, 15, 30, -30, -15 indexed modulo 5 (no ensures; `IdleNoiseStep` states that new rolls come from it) |
| HeadBehavior.GazeAdjust | interface/src/Head.cpp:514-532 | defines the gaze offset for each target: the viewer's left eye `+DEGREES_BETWEEN_VIEWER_EYES` in yaw, the right eye minus that, the mouth `DEGREES_TO_VIEWER_MOUTH` in pitch (no ensures; `EyeContactStep` states the eyeballs it gives) |
| HeadBehavior.Recentered | interface/src/Head.cpp:238-241 | defines the recentred head: pitch, yaw, roll and both leans zero, everything else kept (no ensures; `RecenteredHeadStaysAtRest` states its property) |
| HeadBehavior.WithLean | interface/src/Head.cpp:290-294 | defines a lean impulse added to the sideways and forward lean (no ensures; `LeanImpulsesAccumulate` states its property) |
| HeadBehavior.EyeContactStep | interface/src/Head.cpp:501-536 | eye contact holds afterwards iff it held or the toggle fired; with contact both eyeballs counter-rotate against the head plus the target's offset; the toggle resets the head target; a new target is drawn only on the 0.01 roll, the mouth on the 0.1 roll; a new target that is not the mouth is the left eye iff the eye-side draw is below 0.5 |
| HeadBehavior.IdleNoiseStep | interface/src/Head.cpp:539-568 | without noise nothing changes; with contact the eyeballs stay; eyes stay together, brows stay mirrored, and mouth width, brow pitch and brow roll come from the fixed choice tables |
| HeadBehavior.NoiseJitterIsBounded | interface/src/Head.cpp:541-542 | with draws in `[0, 1)` the jitter moves the head pitch by at most `0.1` and the yaw by at most `0.15` times the noise envelope |
| HeadBehavior.NoiseTargetsStayInRange | interface/src/Head.cpp:553-555 | with draws in `[0, 1)` the new head target stays within ±10° pitch and ±22.5° yaw |
| Locomotion.KeyPairAddsNetPush | interface/src/Head.cpp:401-426 | one key pair adds its net push: `THRUST_MAG` along the axis, against it, or nothing |
| Locomotion.ThrustIsNetPush | interface/src/Head.cpp:397-426 | the thrust is the sum of the three key pairs' net pushes; opposite keys cancel |
| Locomotion.Thrust | interface/src/Head.cpp:401-426 | defines the thrust as the key pairs applied in the source's order, forward/back, right/left, up/down (no ensures; `ThrustIsNetPush` states what it sums to) |
| Locomotion.YawDeltaAfterKeys | interface/src/Head.cpp:427-432 | the rotation keys change the turn rate by `YAW_MAG * dt * (left - right)` |
| Locomotion.ModeFor | interface/src/Head.cpp:437-446 | the mode is never standing, and is walking iff speed plus turn-rate size exceeds 0.2 |
| Locomotion.VelocityFromRest | interface/src/Head.cpp:466-480 | from rest under a constant thrust the velocity stays a multiple of the thrust |
| Locomotion.ThrustMultipleClosedForm | interface/src/Head.cpp:466-480 | with `c = 1 - 5dt`, that multiple `s` satisfies `(1 - c) s = dt c (1 - c^n)` |
| Locomotion.DecayedThrustStep | interface/src/Head.cpp:469-480 | one tick maps the multiple `s` of the thrust to `(1 - 5dt)(s + dt)` |
| Locomotion.NextVelocity | interface/src/Head.cpp:469-480 | defines the velocity after a tick: thrust added over `dt`, then decayed by `1 - 5dt` (no ensures; `VelocityFromRest` and `TerminalVelocity` state its properties) |
| Locomotion.NextPosition | interface/src/Head.cpp:469-475 | defines the position after a tick, moved by the thrust-updated velocity before its decay (no ensures; `Head.Drive` ties the fields to it) |
| Locomotion.PowInUnitInterval | interface/src/Head.cpp:478-479 | repeated decay by a factor in `(0, 1)` stays in `(0, 1]` |
| Locomotion.TerminalVelocity | interface/src/Head.cpp:466-480 | for `0 < dt < 1/5` the velocity never reaches the terminal multiple `(1 - 5dt)/5` of the thrust |
| Locomotion.PositionAfterTicks | interface/src/Head.cpp:466-480 | defines the position after `n` ticks under a constant thrust (no ensures; `PositionFromRest` states where it is) |
| Locomotion.MultipleSum | interface/src/Head.cpp:466-480 | defines the sum `s_0 + ... + s_(n-1)` of the thrust multiples (no ensures; `MultipleSumClosedForm` gives its value) |
| Locomotion.Travel | interface/src/Head.cpp:469-475 | defines the distance along the thrust covered from rest, one tick at a time (no ensures; `TravelClosedForm` gives its value) |
| Locomotion.PositionFromRest | interface/src/Head.cpp:466-480 | from rest the position after `n` ticks is the start plus `dt (n dt + s_0 + ... + s_(n-1))` times the thrust |
| Locomotion.PositionAlongThrust | interface/src/Head.cpp:469-475 | from rest the body stays on the line through its start along the thrust, `Travel` along it |
| Locomotion.TravelClosedForm | interface/src/Head.cpp:469-475 | the distance covered from rest is `dt (n dt + s_0 + ... + s_(n-1))` |
| Locomotion.ThrustMultipleExact | interface/src/Head.cpp:476-480 | with `c = 1 - 5dt` the multiple after `n` ticks is exactly `s_n = (c - c^(n+1)) / 5` |
| Locomotion.MultipleSumExact | interface/src/Head.cpp:466-480 | summing the exact multiples, `5 (s_0 + ... + s_(n-1)) = n c - (c + c^2 + ... + c^n)` |
| Locomotion.PowSum | interface/src/Head.cpp:476-480 | defines the geometric sum `1 + c + ... + c^(n-1)` of the decay factor (no ensures; `GeometricSum` gives its value) |
| Locomotion.GeometricSum | interface/src/Head.cpp:476-480 | for `c != 1`, `1 + c + ... + c^(n-1) = (1 - c^n) / (1 - c)` |
| Locomotion.MultipleSumClosedForm | interface/src/Head.cpp:466-480 | for `dt != 0` and `c = 1 - 5dt`, `5 (s_0 + ... + s_(n-1)) = c (n - (1 - c^n) / (1 - c))` |
| Locomotion.YawDecaySlowsTurn | interface/src/Head.cpp:463-464 | for `0 < dt < 2/5` the yaw decay never speeds the turn up |
| Locomotion.TurnedYaw | interface/src/Head.cpp:449-453 | defines the yaw after turning at the turn rate for `dt` (no ensures; `Head.Drive` ties `bodyYaw` to it) |
| Locomotion.DecayedYawDelta | interface/src/Head.cpp:463-464 | defines the turn rate after the decay by `1 - 5dt` (no ensures; `YawDecaySlowsTurn` states its property) |
| Avatar.TransmitterRate | interface/src/Head.cpp:1345-1351 | the rate is unbounded iff no time elapsed; otherwise rate × elapsed ms = 100 × 1000 |
| Avatar.SteadyStreamRate | interface/src/Head.cpp:1345-1351 | a window of 100 periods of `p` ms, `100 p` ms in all, reads `1000 / p` Hz; only the windows after the first are that long (`FirstWindow`) |
| Avatar.CountPacket | interface/src/Head.cpp:1342-1351 | the counter goes up by one; the timer is the packet's time when it is the first packet or a multiple of 100, and is unchanged otherwise; the rate changes only on a multiple of 100 |
| Avatar.CountPacketRate | interface/src/Head.cpp:1342-1351 | on a multiple of 100 the rate becomes `TransmitterRate` of the time since the window's start (zero for a very first packet); on any other packet it is kept |
| Avatar.Stream | interface/src/Head.cpp:1342-1351 | defines the counter after `n` packets `p` ms apart, the first at a given time (no ensures; the window lemmas state what it reaches) |
| Avatar.StreamWithinWindow | interface/src/Head.cpp:1342-1346 | from a multiple of 100, fewer than 100 packets only count up: the rate is kept, and the timer is set only by the very first packet |
| Avatar.FirstWindow | interface/src/Head.cpp:1342-1351 | from a fresh counter the 100th packet samples the 99 periods since packet 1: the rate read is `TransmitterRate(99 p)` and the timer restarts at packet 100 |
| Avatar.LaterWindow | interface/src/Head.cpp:1346-1351 | after a sample, 100 packets `p` ms apart, the first one period after the sample, are sampled over `100 p` ms |
| Avatar.WindowRates | interface/src/Head.cpp:1351 | the first window reads `100000 / (99 p)` Hz (rate × 99p = 100000), a later one `1000 / p` Hz |
| Avatar.MeasuredTableIsTable | interface/src/Head.cpp:895-1010 | the laid-out, measured table agrees with the skeleton |
| Avatar.TestHand | interface/src/Head.cpp:136-140 | defines the five test positions of the first hand slots, the origin beyond them (no ensures; `Head.constructor` states the slots hold them) |
| Avatar.Examine | interface/src/Head.cpp:339-350 | defines one avatar examined by the scan: its hand written into the next slot, and kept (count and nearest distance advanced) when within reach and nearer than the nearest so far (no ensures; `ExamineKeepsScan` and `Head.ExamineHand` state its properties) |
| Avatar.RankedKeep | interface/src/Head.cpp:344-350 | a hand not kept leaves the ranked slots ranked |
| Avatar.RankedPush | interface/src/Head.cpp:344-350 | a kept hand, in reach and nearer than the last, extends the ranking by one |
| Avatar.ScanPrefix | interface/src/Head.cpp:321-353 | the scan keeps the slot count within the array and never resizes it |
| Avatar.ExamineKeepsScan | interface/src/Head.cpp:334-351 | examining an avatar while a slot is free preserves the scan invariant |
| Avatar.SkipKeepsScan | interface/src/Head.cpp:331-334 | a non-avatar, or any agent once the slots are full, preserves the scan invariant |
| Avatar.ScanPrefixStep | interface/src/Head.cpp:321-353 | one more agent takes the scan invariant over a prefix to the invariant over the longer prefix |
| Avatar.ScanPrefixState | interface/src/Head.cpp:321-353 | after any prefix of agents, the kept slots are ranked avatar hands; while a slot is free no avatar in reach is nearer than the last kept one; later slots are untouched |
| Avatar.ScanComplete | interface/src/Head.cpp:321-353 | the finished scan has found what `ScanFound` says: closest index at the last kept slot, kept slots ranked avatar hands in reach, none iff no avatar is in reach, none nearer skipped while a slot was free, later slots untouched |
| Avatar.SkeletonIsRigid | interface/src/Head.cpp:1012-1048 | the forward-kinematics result is a rigid pose: every bone faces along the body basis at its rigid position, a pinned right hand at the published hand |
| Avatar.ReachKeepsRigidPose | interface/src/Head.cpp:1142-1232 | placing only the arm on a rigid pose keeps every other bone rigid |
| Avatar.ArmMovedThenKept | interface/src/Head.cpp:392-395 | the reach controller followed by the spring pass moves only the right arm's positions |
| Avatar.ReachedTable | interface/src/Head.cpp:1142-1232 | the table after the reach controller holds the hand within arm's length of the shoulder and differs from the old one only in the right arm's positions |
| Avatar.ArmPlacedIsReached | interface/src/Head.cpp:1142-1232 | a table with the arm placed as the reach controller places it, and nothing else changed, is `ReachedTable` |
| Avatar.Head.constructor | interface/src/Head.cpp:48-141 | a new avatar is valid: five test hand slots, yaw -90, at rest, body pitch and roll zero, no drive keys, no hand offset, springs on, counters and timer zero, the initial head; the bone table is `InitialSkeleton`: every bone is its table entry with its measured length, facing along the yaw basis at its rigid position (a remote right hand at the origin), with its spring still at the origin and at rest (`InitialSkeletonAtRest`) |
| Avatar.PosedMeasuredTable | interface/src/Head.cpp:990-995 | posing the measured table gives the initial skeleton, which agrees with the skeleton's table |
| Avatar.InitialSkeletonAtRest | interface/src/Head.cpp:897-911 | the initial skeleton is a rigid pose, a pinned right hand is at the published hand, and every spring sits at the origin at zero velocity: nothing restarts the springs before the first pass (`interface/src/Head.cpp:118`) |
| Avatar.Head.InitializeSkeleton | interface/src/Head.cpp:895-1010 | the table agrees with the skeleton, the arm's reach is the sum of its bone lengths, and the table is `InitialSkeleton`: every bone is `InitialBone` with its measured length, posed rigidly along the body yaw (a remote right hand at the published hand) |
| Avatar.Head.PoseMeasuredTable | interface/src/Head.cpp:994-995 | the forward-kinematics pass over the measured table leaves `InitialSkeleton`, keeps the table and the arm's reach, and the orientation follows the body yaw |
| Avatar.Head.MeasuredBoneTable | interface/src/Head.cpp:895-994 | the table is laid out with measured lengths and the arm's reach computed |
| Avatar.Head.LayOutBoneTable | interface/src/Head.cpp:897-985 | every bone gets its parent, rest offset, default radius and stiffness |
| Avatar.Head.CalculateBoneLengths | interface/src/Head.cpp:1001-1010 | each bone's length becomes its rest offset's length, and the reach is upper arm + forearm + hand |
| Avatar.Head.UpdateSkeleton | interface/src/Head.cpp:1012-1048 | every bone takes the body orientation and its rigid position; a remote avatar's right hand is pinned to the published hand position; the table still agrees |
| Avatar.Head.PoseAllBones | interface/src/Head.cpp:1012-1048 | the loop of the rigid pose, with the same result stated bone by bone |
| Avatar.Head.PoseBone | interface/src/Head.cpp:1020-1046 | one bone takes its parent's position plus its projected offset; a remote avatar's right hand is pinned first |
| Avatar.Head.InitializeBodySprings | interface/src/Head.cpp:1051-1056 | the table becomes `RestartedSprings` of the old one |
| Avatar.Head.UpdateBodySprings | interface/src/Head.cpp:1059-1097 | the table becomes `SpringPass` of the old one over every bone, keeps every bone's pose, and still agrees with the skeleton |
| Avatar.Head.RunSpringPass | interface/src/Head.cpp:1059-1097 | the loop of the spring pass equals `SpringPass` |
| Avatar.Head.SpringBone | interface/src/Head.cpp:1060-1096 | one bone's spring step equals `SpringStep` |
| Avatar.Head.CoupleBone | interface/src/Head.cpp:1061-1082 | the structural coupling equals `Coupled` |
| Avatar.Head.AdvanceBone | interface/src/Head.cpp:1084-1095 | the corrective pull, damping and advance change bone `b` alone |
| Avatar.Head.UpdateBigSphereCollisionTest | interface/src/Head.cpp:577-630 | table, position, velocity and spring flag become `SphereResponse` of the old ones; the table still agrees |
| Avatar.Head.CollideAllBones | interface/src/Head.cpp:586-606 | the contact flag is whether any bone penetrated; table and velocity are the per-bone pass's results |
| Avatar.Head.CollideBoneAt | interface/src/Head.cpp:587-605 | one bone: the hit flag is its penetration; it and the body velocity get their impulses; other bones are untouched |
| Avatar.Head.StartHandMovement | interface/src/Head.cpp:875-881 | springs are on afterwards, and restarted from the current pose if they were off |
| Avatar.Head.SetHandMovementValues | interface/src/Head.cpp:887-889 | the hand offset is stored |
| Avatar.Head.SetMousePressed | interface/src/Head.cpp:305-307 | the mouse flag is stored |
| Avatar.Head.Grabbing | interface/src/Head.cpp:1152-1154 | defines the handshake condition: springs on, a nearest avatar and the mouse pressed (no ensures; `Head.UpdateHandMovement` uses it) |
| Avatar.Head.GrabbedHand | interface/src/Head.cpp:1165 | defines the hand a handshake snaps to, the nearest avatar's slot (no ensures; `Head.UpdateHandMovement` uses it) |
| Avatar.Head.HandGoal | interface/src/Head.cpp:1143-1170 | defines the hand's target before the reach limit, `HandTarget` on the current fields (no ensures; `Head.UpdateHandMovement` states the hand is that target clamped) |
| Avatar.Head.UpdateHandMovement | interface/src/Head.cpp:1142-1237 | hand, elbow and wrist are placed from the clamped target; the published hand is there, within arm's length; no other bone moves; the table is `ReachedTable` of the old one |
| Avatar.Head.ReachHand | interface/src/Head.cpp:1143-1197 | the right hand goes to the clamped target, and the arm vector and its length are returned |
| Avatar.Head.ScanOtherAvatars | interface/src/Head.cpp:316-353 | the scan ends as `ScanFound` states: kept slots are ranked avatar hands in reach; none iff no avatar in reach; while a slot is free none nearer was skipped; the closest index is the last kept slot; later slots are untouched |
| Avatar.Head.ScanAgents | interface/src/Head.cpp:321-353 | the loop's slots, count and closest distance are `ScanPrefix` over all agents |
| Avatar.Head.ExamineHand | interface/src/Head.cpp:339-350 | one avatar's hand written and kept as `Examine` states; the closest index follows a kept hand |
| Avatar.Head.Turn | interface/src/Head.cpp:397-433 | a remote avatar's turn rate is unchanged; a local one's changes by the rotation keys |
| Avatar.Head.Simulate | interface/src/Head.cpp:310-569 | one tick: a local avatar's scan ends as `ScanFound`, a remote one's slots are kept; the body follows `SphereResponse`; the pose is `PosedAt` the post-collision body with the orientation from the old yaw; thrust, mode (on the post-collision velocity), yaw, yaw decay, velocity and position follow the locomotion functions; the head goes through the idle pipeline; the avatar stays valid |
| Avatar.Head.SimulateMotion | interface/src/Head.cpp:397-568 | driving and the idle head: thrust, mode, yaw, turn rate, velocity, position and head follow the locomotion and head functions; pose, published hand, scan slots and grab state are unchanged |
| Avatar.Head.SimulateBody | interface/src/Head.cpp:316-395 | the body part of a tick: the scan ends as `ScanFound` (local) or is kept (remote); position, velocity and springs are `SphereResponse`; the pose is `PosedAt` the new body |
| Avatar.Head.PoseBody | interface/src/Head.cpp:387-395 | the orientation follows the yaw and the table is `PosedAt` the body: rigid outside the right arm, a remote right hand pinned, and with springs the published hand is the hand target clamped to arm's length of the rigid shoulder; without springs the published hand is kept |
| Avatar.Head.ReachAndSpring | interface/src/Head.cpp:392-395 | the published hand is the clamped target; the table is `SpringPass` over every bone of `ReachedTable` of the old one; the right hand is at the published hand; only the right arm moved |
| Avatar.Head.Drive | interface/src/Head.cpp:397-480 | thrust, mode, yaw, turn-rate decay, velocity and position are the locomotion functions of the old state |
| Avatar.Head.ApplyDriveKeys | interface/src/Head.cpp:397-433 | thrust rebuilt from the keys; turn rate changed by the rotation keys |
| Avatar.Head.PushKeys | interface/src/Head.cpp:401-426 | one key pair's push is `KeyPair` of the old thrust |
| Avatar.Head.UpdateIdleHead | interface/src/Head.cpp:456-568 | the head at the body's angles goes through rest decay, eye contact and noise; contact, eyes together and mirrored brows are kept |
| Avatar.Head.Reset | interface/src/Head.cpp:238-241 | the head is recentred; validity is kept |
| Avatar.Head.AddLean | interface/src/Head.cpp:290-294 | the lean impulse is added; validity is kept |
| Avatar.Head.SetNewHeadTarget | interface/src/Head.cpp:1322-1325 | the head target is set; validity is kept |
| Avatar.Head.ProcessTransmitterData | interface/src/Head.cpp:1342-1353 | the counter goes up by one; the first packet starts the timer; every 100th samples the rate since the timer and restarts it |

## Left out

- Rendering (`render`, `renderHead`, `renderBody`, `renderBoneAsBlock`) and the brow/mouth display tables beyond the choices the idle noise makes: drawing calls only.
- `UpdateGyros`: reads a serial device; it is I/O.
- The copy constructor and `clone`: object copying with no behaviour of its own.
- The getters `getMode`, `getHeadLookatDirection*`, `getHeadPosition` and `getBonePosition`: field reads. The scan reads another avatar's right hand directly from `Agent`.
- `setLeanForward` and `setLeanSideways`: plain field setters outside the simulation step.
- `stopHandMovement`: its body is empty.
- `processTransmitterData`: the `sscanf` parse of the packet is left out, because the parsed values are never used. `gettimeofday` is the parameter `nowMs`, and `diffclock` is the difference of two readings.
- The agent list singleton and the cast of linked data to `Head`: the agents are a parameter.
- Single-precision floating point: rounding, NaN and infinity are not modelled.
- Reach.ElbowPosition: the source divides by the arm length with no guard, which gives NaN when the hand sits on the shoulder. The model uses no bend in that case.
- Avatar.TransmitterRate: an elapsed time of zero gives IEEE infinity in the source. The model returns `Infinite`.
- Avatar.Head.ProcessTransmitterData: the packet counter is an unbounded integer. The source's 32-bit `int` overflow is not modelled.
- Avatar.Head.UpdateBodySprings: its contract is the pass itself. The over-damped consequences are the lemmas `OverDampedPassFreezes` and `OverDampedTableLeavesStop`, not a method ensures.
- Avatar.Head.PoseBody: states the pose (`PosedAt`) and the published hand, but neither the elbow and wrist positions nor the spring positions and velocities after the spring pass. The elbow and wrist are given by `ReachedTable`, and the spring state by `SpringPass` of `ReachedTable`, both on `ReachAndSpring`, which it calls.
- Avatar.Head.SimulateBody: like `PoseBody`, it does not restate the elbow and wrist positions (given by `ReachedTable` on `ReachAndSpring`) or the spring state after the pass.
- Avatar.Head.Simulate: like `PoseBody`, it does not restate the elbow and wrist positions (given by `ReachedTable` on `ReachAndSpring`) or the spring state after the pass, and it does not name the bone table's spring state after the collision test; both are in the ensures of the methods it calls.
- The commented-out code and the `if (0)` block of the idle noise: never executed.
- Pupil size and the rotation quaternions: fields the simulation code never reads.
- The idle draws are one record per tick. The source consumes a random number only when its branch runs, so the order in which draws are consumed is not modelled.
- `Head.h` is not part of this model. The bone enumeration, the drive-key indices and `MAX_OTHER_AVATARS` are taken from how `Head.cpp` uses them.
