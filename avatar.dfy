/**
 * The per-avatar simulation state and the passes that advance it each tick: the bone
 * table with its rigid pose, spring-follow state and collision response, the right-hand
 * reach controller, the nearest-avatar scan, driving, the idle head, and the counter
 * that samples the rate of transmitter packets.
 *
 * The Euclidean length and the yaw-to-orientation map are handed in when an avatar is
 * made (`len` and `yawBasis`); other avatars, random draws, elapsed time and the clock
 * are parameters of the operations that use them.
 */
module Avatar {
  import opened Vectors
  import opened Skeleton
  import opened Springs
  import opened Collision
  import opened Reach
  import opened HeadBehavior
  import opened Locomotion

  /** The number of other-avatar hand slots the constructor fills with test positions. */
  const TEST_HAND_SLOTS: int := 5
  /** The distance the nearest-avatar scan starts from: any accepted hand is nearer. */
  const CLOSEST_START_DISTANCE: real := 10000.0
  /** Packets between two samples of the transmitter rate. */
  const TRANSMITTER_COUNT: int := 100

  /** What the scan sees of another agent: whether it is an avatar, and that avatar's right-hand position. */
  datatype Agent = Agent(isAvatar: bool, rightHand: Vec3)

  /** A sampled packet rate; an elapsed time of zero gives an unbounded rate. */
  datatype Rate = Finite(hz: real) | Infinite

  /** The rate of `TRANSMITTER_COUNT` packets received over `elapsedMs` milliseconds. */
  function TransmitterRate(elapsedMs: real): (r: Rate)
    ensures r == Infinite <==> elapsedMs == 0.0
    ensures r.Finite? ==> r.hz * elapsedMs == TRANSMITTER_COUNT as real * 1000.0
  {
    if elapsedMs == 0.0 then Infinite
    else
      var seconds := elapsedMs / 1000.0;
      assert seconds * 1000.0 == elapsedMs;
      Finite(TRANSMITTER_COUNT as real / seconds)
  }

  /**
   * A sampling window of `TRANSMITTER_COUNT` packet periods of `periodMs` milliseconds each,
   * `100 * periodMs` in all, gives `1000 / periodMs` hertz. Only the windows after the first
   * span that long: the first is timed from packet 1 and so spans 99 periods (`FirstWindow`).
   */
  lemma SteadyStreamRate(periodMs: real)
    requires periodMs > 0.0
    ensures TransmitterRate(TRANSMITTER_COUNT as real * periodMs) == Finite(1000.0 / periodMs)
  {
    var r := TransmitterRate(TRANSMITTER_COUNT as real * periodMs);
    assert r.hz * (100.0 * periodMs) == 100000.0;
    assert r.hz * periodMs == 1000.0;
  }

  /** The transmitter counter: packets received, the start of the current window and the last sampled rate. */
  datatype Counter = Counter(packets: int, timer: real, hz: Rate)

  /**
   * One transmitter packet received at `nowMs`: the first packet starts the window, and
   * every `TRANSMITTER_COUNT`-th packet samples the rate over the window and starts the next.
   */
  function CountPacket(s: Counter, nowMs: real): (r: Counter)
    ensures r.packets == s.packets + 1
    ensures r.timer == (if s.packets == 0 || r.packets % TRANSMITTER_COUNT == 0 then nowMs else s.timer)
    ensures r.hz != s.hz ==> r.packets % TRANSMITTER_COUNT == 0
  {
    var timer := if s.packets == 0 then nowMs else s.timer;
    var packets := s.packets + 1;
    if packets % TRANSMITTER_COUNT == 0 then Counter(packets, nowMs, TransmitterRate(nowMs - timer))
    else Counter(packets, timer, s.hz)
  }

  /**
   * What a packet does to the sampled rate: a packet that completes a window sets it to the
   * rate over the time since the window's start (none for a very first packet), and any
   * other packet keeps it.
   */
  lemma CountPacketRate(s: Counter, nowMs: real)
    ensures var r := CountPacket(s, nowMs);
      (r.packets % TRANSMITTER_COUNT == 0 ==> r.hz == TransmitterRate(nowMs - (if s.packets == 0 then nowMs else s.timer))) &&
      (r.packets % TRANSMITTER_COUNT != 0 ==> r.hz == s.hz)
  {
  }

  /** The counter after `n` packets arriving `periodMs` apart, the first of them at `firstMs`. */
  function Stream(s: Counter, firstMs: real, periodMs: real, n: nat): Counter
    decreases n
  {
    if n == 0 then s
    else CountPacket(Stream(s, firstMs, periodMs, n - 1), firstMs + (n - 1) as real * periodMs)
  }

  /**
   * Inside a window nothing is sampled: from a counter at a multiple of `TRANSMITTER_COUNT`,
   * fewer than `TRANSMITTER_COUNT` packets only count up, and the very first packet starts the timer.
   */
  lemma {:induction false} StreamWithinWindow(s: Counter, firstMs: real, periodMs: real, n: nat)
    requires s.packets >= 0 && s.packets % TRANSMITTER_COUNT == 0
    requires n < TRANSMITTER_COUNT
    ensures Stream(s, firstMs, periodMs, n) ==
      Counter(s.packets + n, if s.packets == 0 && n > 0 then firstMs else s.timer, s.hz)
    decreases n
  {
    if n > 0 {
      StreamWithinWindow(s, firstMs, periodMs, n - 1);
      InsideWindow(s.packets, n);
      if n == 1 {
        assert firstMs + (n - 1) as real * periodMs == firstMs;
      }
    }
  }

  lemma InsideWindow(base: int, j: int)
    requires base % TRANSMITTER_COUNT == 0 && 0 < j < TRANSMITTER_COUNT
    ensures (base + j) % TRANSMITTER_COUNT != 0
  {
  }

  /** Packet `m + 1` of a stream arrives at `firstMs + m * periodMs`. */
  lemma NextPacket(s: Counter, firstMs: real, periodMs: real, m: nat)
    ensures Stream(s, firstMs, periodMs, m + 1) == CountPacket(Stream(s, firstMs, periodMs, m), firstMs + m as real * periodMs)
  {
  }

  lemma WindowEnd(base: int)
    requires base % TRANSMITTER_COUNT == 0
    ensures (base + 99 + 1) % TRANSMITTER_COUNT == 0
  {
  }

  /** A packet that completes a window samples the rate over the elapsed window and restarts the timer. */
  lemma WindowSample(w: Counter, nowMs: real, elapsedMs: real)
    requires w.packets > 0 && (w.packets + 1) % TRANSMITTER_COUNT == 0
    requires elapsedMs == nowMs - w.timer
    ensures CountPacket(w, nowMs) == Counter(w.packets + 1, nowMs, TransmitterRate(elapsedMs))
  {
  }

  /**
   * The first window: from a fresh counter, `TRANSMITTER_COUNT` (100) packets `periodMs` apart
   * are sampled over the 99 periods between packet 1 and packet 100, which reads
   * `100000 / (99 * periodMs)` hertz rather than `1000 / periodMs`.
   */
  lemma FirstWindow(timer: real, hz: Rate, firstMs: real, periodMs: real)
    ensures Stream(Counter(0, timer, hz), firstMs, periodMs, 100) ==
      Counter(100, firstMs + 99.0 * periodMs, TransmitterRate(99.0 * periodMs))
  {
    var s := Counter(0, timer, hz);
    var t := firstMs + 99.0 * periodMs;
    WindowSample(Counter(99, firstMs, hz), t, 99.0 * periodMs);
    NextPacket(s, firstMs, periodMs, 99);
    StreamWithinWindow(s, firstMs, periodMs, 99);
  }

  /**
   * A later window: when the packets after a sample arrive `periodMs` apart, the first of
   * them one period after the sample, the next sample spans 100 periods.
   */
  lemma LaterWindow(s: Counter, periodMs: real)
    requires s.packets > 0 && s.packets % TRANSMITTER_COUNT == 0
    ensures Stream(s, s.timer + periodMs, periodMs, 100) ==
      Counter(s.packets + 100, s.timer + 100.0 * periodMs, TransmitterRate(100.0 * periodMs))
  {
    var first := s.timer + periodMs;
    var t := first + 99.0 * periodMs;
    StreamWithinWindow(s, first, periodMs, 99);
    NextPacket(s, first, periodMs, 99);
    WindowEnd(s.packets);
    WindowSample(Counter(s.packets + 99, s.timer, s.hz), t, 100.0 * periodMs);
  }

  /**
   * What the two windows read for a steady stream: the first `100000 / (99 * periodMs)` hertz,
   * every later one `1000 / periodMs`.
   */
  lemma WindowRates(periodMs: real)
    requires periodMs > 0.0
    ensures TransmitterRate(99.0 * periodMs).Finite?
    ensures TransmitterRate(99.0 * periodMs).hz * (99.0 * periodMs) == 100000.0
    ensures TransmitterRate(100.0 * periodMs) == Finite(1000.0 / periodMs)
  {
    SteadyStreamRate(periodMs);
  }

  /** The test hand positions the first slots start with; the remaining slots start at the origin. */
  function TestHand(i: int): Vec3 {
    if i == 0 then Vec3(0.0, 0.3, 2.0)
    else if i == 1 then Vec3(4.0, 0.3, 2.0)
    else if i == 2 then Vec3(2.0, 0.3, 2.0)
    else if i == 3 then Vec3(1.0, 0.3, -4.0)
    else if i == 4 then Vec3(-2.0, 0.3, -2.0)
    else Zero
  }

  /** The bone table with every length measured by `len`, before any posing. */
  predicate MeasuredTable(t: seq<Bone>, len: Vec3 -> real) {
    |t| == NUM_BONES && forall b :: 0 <= b < NUM_BONES ==> t[b] == InitialBone(b).(length := len(DefaultPose(b)))
  }

  lemma MeasuredTableIsTable(t: seq<Bone>, len: Vec3 -> real)
    requires MeasuredTable(t, len)
    ensures IsTable(t, len)
  {
    LaidOutTableIsTable(t, len);
  }

  /**
   * The skeleton a new avatar starts with: every bone is its table entry with its measured
   * length, facing along `basis` at its rigid position from a body at `body`, a pinned right
   * hand at `hand`; the spring state is still the reset one.
   */
  predicate InitialSkeleton(bs: seq<Bone>, len: Vec3 -> real, basis: Basis, body: Vec3, pinned: bool, hand: Vec3) {
    |bs| == NUM_BONES &&
    forall b :: 0 <= b < NUM_BONES ==>
      bs[b] == InitialBone(b).(length := len(DefaultPose(b)), orientation := basis,
                               position := if pinned && b == RIGHT_HAND then hand else RigidPosition(b, basis, body))
  }

  /** `c` is `t` posed rigidly along `basis` from a body at `body`, a pinned right hand at `hand`. */
  predicate PosedFrom(c: seq<Bone>, t: seq<Bone>, basis: Basis, body: Vec3, pinned: bool, hand: Vec3) {
    |c| == NUM_BONES && |t| == NUM_BONES &&
    forall b :: 0 <= b < NUM_BONES ==>
      c[b] == t[b].(orientation := basis, position := if pinned && b == RIGHT_HAND then hand else RigidPosition(b, basis, body))
  }

  /** Posing the measured table gives the initial skeleton. */
  lemma PosedMeasuredTable(t: seq<Bone>, c: seq<Bone>, len: Vec3 -> real, basis: Basis, body: Vec3, pinned: bool, hand: Vec3)
    requires MeasuredTable(t, len) && PosedFrom(c, t, basis, body, pinned, hand)
    ensures InitialSkeleton(c, len, basis, body, pinned, hand)
    ensures IsTable(c, len)
  {
    LaidOutTableIsTable(c, len);
  }

  /**
   * The initial skeleton is a rigid pose whose springs sit at the origin at rest: nothing
   * restarts them before the first spring pass, so that pass pulls them from the origin.
   */
  lemma InitialSkeletonAtRest(c: seq<Bone>, len: Vec3 -> real, basis: Basis, body: Vec3, pinned: bool, hand: Vec3)
    requires InitialSkeleton(c, len, basis, body, pinned, hand)
    ensures RigidPose(c, basis, body, pinned, false)
    ensures pinned ==> c[RIGHT_HAND].position == hand
    ensures forall b :: 0 <= b < NUM_BONES ==> c[b].springyPosition == Zero && c[b].springyVelocity == Zero
  {
  }

  /** Distance from a shoulder to a hand, as `len` measures it. */
  function HandDistance(len: Vec3 -> real, shoulder: Vec3, hand: Vec3): real {
    len(Sub(shoulder, hand))
  }

  /** The first `n` slots hold hands within `reach` of the shoulder, each strictly nearer than the one before it. */
  predicate Ranked(slots: seq<Vec3>, n: int, len: Vec3 -> real, shoulder: Vec3, reach: real) {
    0 <= n <= |slots| &&
    (forall k :: 0 <= k < n ==> HandDistance(len, shoulder, slots[k]) < reach) &&
    (forall k, k' :: 0 <= k < k' < n ==> HandDistance(len, shoulder, slots[k']) < HandDistance(len, shoulder, slots[k]))
  }

  /** Each of the first `n` slots holds the right hand of the avatar `from` names among the first `i` agents. */
  predicate Picked(slots: seq<Vec3>, n: int, agents: seq<Agent>, from: seq<int>, i: int) {
    0 <= n <= |slots| && |from| == n && i <= |agents| &&
    forall k :: 0 <= k < n ==> 0 <= from[k] < i && agents[from[k]].isAvatar && slots[k] == agents[from[k]].rightHand
  }

  /** A hand examined but not kept leaves the ranked slots as they were. */
  lemma RankedKeep(slots: seq<Vec3>, slots': seq<Vec3>, n: int, len: Vec3 -> real, shoulder: Vec3, reach: real)
    requires Ranked(slots, n, len, shoulder, reach) && |slots'| == |slots|
    requires forall k :: 0 <= k < n ==> slots'[k] == slots[k]
    ensures Ranked(slots', n, len, shoulder, reach)
  {
  }

  /** A kept hand, in reach and nearer than the last ranked one, extends the ranking by one slot. */
  lemma RankedPush(slots: seq<Vec3>, slots': seq<Vec3>, n: int, len: Vec3 -> real, shoulder: Vec3, reach: real)
    requires Ranked(slots, n, len, shoulder, reach) && n < |slots| == |slots'|
    requires forall k :: 0 <= k < n ==> slots'[k] == slots[k]
    requires HandDistance(len, shoulder, slots'[n]) < reach
    requires n > 0 ==> HandDistance(len, shoulder, slots'[n]) < HandDistance(len, shoulder, slots[n - 1])
    ensures Ranked(slots', n + 1, len, shoulder, reach)
  {
    forall k, k' | 0 <= k < k' < n + 1
      ensures HandDistance(len, shoulder, slots'[k']) < HandDistance(len, shoulder, slots'[k])
    {
      if k' == n && k < n - 1 {
        assert HandDistance(len, shoulder, slots[n - 1]) < HandDistance(len, shoulder, slots[k]);
      }
    }
  }

  /** The scan's slots: the hands written so far, how many are kept, and the distance of the last kept one. */
  datatype ScanSlots = ScanSlots(hands: seq<Vec3>, count: int, nearest: real)

  /**
   * One avatar's hand examined by the scan: it is written into slot `n`, and it is kept
   * (the count and the nearest distance advance) when it lies within `reach` and nearer
   * than `closest`.
   */
  function Examine(slots: seq<Vec3>, n: int, closest: real, hand: Vec3, len: Vec3 -> real, shoulder: Vec3, reach: real): ScanSlots
    requires 0 <= n < |slots|
  {
    var d := HandDistance(len, shoulder, hand);
    if d < reach && d < closest then ScanSlots(slots[n := hand], n + 1, d)
    else ScanSlots(slots[n := hand], n, closest)
  }

  /**
   * The scan after its first `i` agents: the first `n` slots are ranked and picked from
   * avatars among them, `closest` is the last kept distance (the start distance while
   * none is kept), no avatar seen so far lies in reach nearer than it while a slot is
   * free, and the slots past `n` are as they started.
   */
  predicate ScanState(slots: seq<Vec3>, initial: seq<Vec3>, n: int, from: seq<int>, agents: seq<Agent>, i: int,
                      closest: real, len: Vec3 -> real, shoulder: Vec3, reach: real) {
    0 <= i <= |agents| && |slots| == |initial| &&
    Ranked(slots, n, len, shoulder, reach) &&
    Picked(slots, n, agents, from, i) &&
    closest == (if n == 0 then CLOSEST_START_DISTANCE else HandDistance(len, shoulder, slots[n - 1])) &&
    (n < |slots| ==>
      forall a :: 0 <= a < i && agents[a].isAvatar && HandDistance(len, shoulder, agents[a].rightHand) < reach ==>
        HandDistance(len, shoulder, agents[a].rightHand) >= closest) &&
    (forall k :: n < k < |slots| ==> slots[k] == initial[k])
  }

  /** An avatar's hand examined while a slot is free keeps the scan's state, one agent further on. */
  lemma ExamineKeepsScan(slots: seq<Vec3>, initial: seq<Vec3>, n: int, from: seq<int>, agents: seq<Agent>, i: int,
                         closest: real, len: Vec3 -> real, shoulder: Vec3, reach: real)
    requires ScanState(slots, initial, n, from, agents, i, closest, len, shoulder, reach)
    requires i < |agents| && agents[i].isAvatar && n < |slots|
    ensures var r := Examine(slots, n, closest, agents[i].rightHand, len, shoulder, reach);
      ScanState(r.hands, initial, r.count, if r.count > n then from + [i] else from, agents, i + 1,
                r.nearest, len, shoulder, reach)
  {
    var hand := agents[i].rightHand;
    var r := Examine(slots, n, closest, hand, len, shoulder, reach);
    if r.count > n {
      RankedPush(slots, r.hands, n, len, shoulder, reach);
      var from' := from + [i];
      assert forall k :: 0 <= k < n ==> from'[k] == from[k];
    } else {
      RankedKeep(slots, r.hands, n, len, shoulder, reach);
    }
  }

  /** An agent that is not an avatar, or any agent once the slots are full, keeps the scan's state unchanged. */
  lemma SkipKeepsScan(slots: seq<Vec3>, initial: seq<Vec3>, n: int, from: seq<int>, agents: seq<Agent>, i: int,
                      closest: real, len: Vec3 -> real, shoulder: Vec3, reach: real)
    requires ScanState(slots, initial, n, from, agents, i, closest, len, shoulder, reach)
    requires i < |agents| && !(agents[i].isAvatar && n < |slots|)
    ensures ScanState(slots, initial, n, from, agents, i + 1, closest, len, shoulder, reach)
  {
  }

  /**
   * The scan over the first `i` agents, stated on values: starting from the slots as
   * they were, no hand kept and the start distance, each avatar is examined while a
   * slot is free, and every other agent is passed over.
   */
  function ScanPrefix(initial: seq<Vec3>, agents: seq<Agent>, i: int, len: Vec3 -> real, shoulder: Vec3, reach: real): (r: ScanSlots)
    requires 0 <= i <= |agents|
    ensures |r.hands| == |initial| && 0 <= r.count <= |initial|
    decreases i
  {
    if i == 0 then ScanSlots(initial, 0, CLOSEST_START_DISTANCE)
    else
      var s := ScanPrefix(initial, agents, i - 1, len, shoulder, reach);
      if agents[i - 1].isAvatar && s.count < |s.hands| then
        Examine(s.hands, s.count, s.nearest, agents[i - 1].rightHand, len, shoulder, reach)
      else s
  }

  /** The agents whose hands the scan over the first `i` agents kept, in the order it kept them. */
  ghost function ScanPicks(initial: seq<Vec3>, agents: seq<Agent>, i: int, len: Vec3 -> real, shoulder: Vec3, reach: real): seq<int>
    requires 0 <= i <= |agents|
    decreases i
  {
    if i == 0 then []
    else
      var picks := ScanPicks(initial, agents, i - 1, len, shoulder, reach);
      if ScanPrefix(initial, agents, i, len, shoulder, reach).count > ScanPrefix(initial, agents, i - 1, len, shoulder, reach).count
      then picks + [i - 1] else picks
  }

  /** The scan's state after `i - 1` agents becomes its state after `i` agents, with the picks it made. */
  lemma ScanPrefixStep(initial: seq<Vec3>, agents: seq<Agent>, i: int, len: Vec3 -> real, shoulder: Vec3, reach: real)
    requires 0 < i <= |agents|
    requires var s := ScanPrefix(initial, agents, i - 1, len, shoulder, reach);
      ScanState(s.hands, initial, s.count, ScanPicks(initial, agents, i - 1, len, shoulder, reach), agents, i - 1, s.nearest,
                len, shoulder, reach)
    ensures var s := ScanPrefix(initial, agents, i, len, shoulder, reach);
      ScanState(s.hands, initial, s.count, ScanPicks(initial, agents, i, len, shoulder, reach), agents, i, s.nearest,
                len, shoulder, reach)
  {
    var s := ScanPrefix(initial, agents, i - 1, len, shoulder, reach);
    var picks := ScanPicks(initial, agents, i - 1, len, shoulder, reach);
    if agents[i - 1].isAvatar && s.count < |s.hands| {
      var r := Examine(s.hands, s.count, s.nearest, agents[i - 1].rightHand, len, shoulder, reach);
      assert ScanPrefix(initial, agents, i, len, shoulder, reach) == r;
      assert ScanPicks(initial, agents, i, len, shoulder, reach) == if r.count > s.count then picks + [i - 1] else picks;
      ExamineKeepsScan(s.hands, initial, s.count, picks, agents, i - 1, s.nearest, len, shoulder, reach);
    } else {
      assert ScanPrefix(initial, agents, i, len, shoulder, reach) == s;
      assert ScanPicks(initial, agents, i, len, shoulder, reach) == picks;
      SkipKeepsScan(s.hands, initial, s.count, picks, agents, i - 1, s.nearest, len, shoulder, reach);
    }
  }

  /** The scan over any prefix of the agents is in the scan's state, with the picks it made. */
  lemma {:induction false} ScanPrefixState(initial: seq<Vec3>, agents: seq<Agent>, i: int, len: Vec3 -> real, shoulder: Vec3, reach: real)
    requires 0 <= i <= |agents|
    ensures var s := ScanPrefix(initial, agents, i, len, shoulder, reach);
      ScanState(s.hands, initial, s.count, ScanPicks(initial, agents, i, len, shoulder, reach), agents, i, s.nearest,
                len, shoulder, reach)
    decreases i
  {
    if i > 0 {
      ScanPrefixState(initial, agents, i - 1, len, shoulder, reach);
      ScanPrefixStep(initial, agents, i, len, shoulder, reach);
    }
  }

  /**
   * What a finished nearest-avatar scan leaves: the closest index is the last kept slot;
   * the kept slots hold right hands of avatars, ranked nearer and nearer within reach;
   * none is kept exactly when no avatar is in reach; while a slot is free, no avatar in
   * reach is nearer than the last kept hand; and the slots past the kept ones are as
   * they started.
   */
  predicate ScanFound(slots: seq<Vec3>, initial: seq<Vec3>, n: int, closest: int, agents: seq<Agent>,
                      len: Vec3 -> real, shoulder: Vec3, reach: real)
  {
    closest == n - 1 &&
    Ranked(slots, n, len, shoulder, reach) &&
    (forall k :: 0 <= k < n ==> exists a :: 0 <= a < |agents| && agents[a].isAvatar && slots[k] == agents[a].rightHand) &&
    (n == 0 <==> forall a :: 0 <= a < |agents| && agents[a].isAvatar ==> HandDistance(len, shoulder, agents[a].rightHand) >= reach) &&
    (0 < n < |slots| ==>
      forall a :: 0 <= a < |agents| && agents[a].isAvatar && HandDistance(len, shoulder, agents[a].rightHand) < reach ==>
        HandDistance(len, shoulder, agents[a].rightHand) >= HandDistance(len, shoulder, slots[n - 1])) &&
    (forall k :: n < k < |slots| && k < |initial| ==> slots[k] == initial[k])
  }

  /** A scan in its state after the last agent, its closest index at the last kept slot, has found what `ScanFound` says. */
  lemma ScanComplete(slots: seq<Vec3>, initial: seq<Vec3>, n: int, closestIndex: int, from: seq<int>, agents: seq<Agent>,
                     closest: real, len: Vec3 -> real, shoulder: Vec3, reach: real)
    requires ScanState(slots, initial, n, from, agents, |agents|, closest, len, shoulder, reach)
    requires 0 < |slots| && reach < CLOSEST_START_DISTANCE && closestIndex == n - 1
    ensures ScanFound(slots, initial, n, closestIndex, agents, len, shoulder, reach)
  {
    forall k | 0 <= k < n
      ensures exists a :: 0 <= a < |agents| && agents[a].isAvatar && slots[k] == agents[a].rightHand
    {
      assert agents[from[k]].isAvatar && slots[k] == agents[from[k]].rightHand;
    }
    if n > 0 {
      var a := from[0];
      assert HandDistance(len, shoulder, slots[0]) < reach;
      assert 0 <= a < |agents| && agents[a].isAvatar && HandDistance(len, shoulder, agents[a].rightHand) < reach;
    }
  }

  /** The bones the reach controller places: the right hand, the elbow (upper arm) and the wrist (forearm). */
  predicate InRightArm(b: int) {
    b == RIGHT_HAND || b == RIGHT_UPPER_ARM || b == RIGHT_FOREARM
  }

  /** Two tables alike but for the positions of the right-arm bones. */
  predicate OnlyArmMoved(a: seq<Bone>, c: seq<Bone>) {
    |a| == |c| &&
    forall j :: 0 <= j < |a| ==> c[j].orientation == a[j].orientation && (!InRightArm(j) ==> c[j].position == a[j].position)
  }

  /**
   * The rigid pose of a table: every bone faces along `basis`, and each is at its
   * rigid position for a body at `body`, except the right hand when it is pinned
   * elsewhere and the right-arm bones when the reach controller has placed them.
   */
  predicate RigidPose(bs: seq<Bone>, basis: Basis, body: Vec3, handPinned: bool, armReached: bool) {
    |bs| == NUM_BONES &&
    forall j :: 0 <= j < NUM_BONES ==>
      bs[j].orientation == basis &&
      ((handPinned ==> j != RIGHT_HAND) && (armReached ==> !InRightArm(j)) ==> bs[j].position == RigidPosition(j, basis, body))
  }

  /** The forward-kinematics pass leaves a rigid pose: every bone faces along `basis` at its rigid position, a pinned right hand aside. */
  lemma SkeletonIsRigid(a: seq<Bone>, c: seq<Bone>, basis: Basis, body: Vec3, handPinned: bool, hand: Vec3)
    requires |a| == NUM_BONES && |c| == NUM_BONES
    requires forall b :: 0 <= b < NUM_BONES ==>
      c[b] == a[b].(orientation := basis, position := if handPinned && b == RIGHT_HAND then hand else RigidPosition(b, basis, body))
    ensures RigidPose(c, basis, body, handPinned, false)
    ensures handPinned ==> c[RIGHT_HAND].position == hand
  {
  }

  /** Placing the arm on a rigidly posed table leaves the rest of the rigid pose. */
  lemma ReachKeepsRigidPose(a: seq<Bone>, c: seq<Bone>, basis: Basis, body: Vec3, handPinned: bool)
    requires RigidPose(a, basis, body, handPinned, false) && OnlyArmMoved(a, c)
    ensures RigidPose(c, basis, body, handPinned, true)
  {
  }

  /** Moving only the arm, then keeping the pose, moves only the arm. */
  lemma ArmMovedThenKept(a: seq<Bone>, b: seq<Bone>, c: seq<Bone>)
    requires OnlyArmMoved(a, b) && SamePose(b, c)
    ensures OnlyArmMoved(a, c)
  {
  }

  /**
   * The bone table after the reach controller, for a hand goal and the body's front
   * axis: the right hand at the goal held within arm's length of the shoulder, the elbow
   * placed from shoulder and hand, the wrist between them; every other bone as it was.
   */
  function ReachedTable(bs: seq<Bone>, goal: Vec3, front: Vec3, maxArm: real, len: Vec3 -> real): (r: seq<Bone>)
    requires |bs| == NUM_BONES && IsNorm(len) && maxArm >= 0.0
    ensures |r| == NUM_BONES
    ensures len(Sub(r[RIGHT_HAND].position, r[RIGHT_SHOULDER].position)) <= maxArm
    ensures OnlyArmMoved(bs, r)
  {
    var shoulder := bs[RIGHT_SHOULDER].position;
    var hand := ClampReach(shoulder, goal, maxArm, len);
    var arm := Sub(hand, shoulder);
    var elbow := ElbowPosition(shoulder, arm, Cross(front, arm), maxArm, len(arm));
    bs[RIGHT_HAND := bs[RIGHT_HAND].(position := hand)]
      [RIGHT_UPPER_ARM := bs[RIGHT_UPPER_ARM].(position := elbow)]
      [RIGHT_FOREARM := bs[RIGHT_FOREARM].(position := WristPosition(elbow, hand))]
  }

  /** A table whose right-arm bones sit where the reach controller puts them, and which is otherwise unchanged, is the reached table. */
  lemma ArmPlacedIsReached(a: seq<Bone>, c: seq<Bone>, goal: Vec3, front: Vec3, maxArm: real, len: Vec3 -> real)
    requires |a| == NUM_BONES && |c| == NUM_BONES && IsNorm(len) && maxArm >= 0.0
    requires var shoulder := a[RIGHT_SHOULDER].position;
      var hand := ClampReach(shoulder, goal, maxArm, len);
      var arm := Sub(hand, shoulder);
      var elbow := ElbowPosition(shoulder, arm, Cross(front, arm), maxArm, len(arm));
      c[RIGHT_HAND] == a[RIGHT_HAND].(position := hand) &&
      c[RIGHT_UPPER_ARM] == a[RIGHT_UPPER_ARM].(position := elbow) &&
      c[RIGHT_FOREARM] == a[RIGHT_FOREARM].(position := WristPosition(elbow, hand))
    requires forall j :: 0 <= j < NUM_BONES && !InRightArm(j) ==> c[j] == a[j]
    ensures c == ReachedTable(a, goal, front, maxArm, len)
  {
    var r := ReachedTable(a, goal, front, maxArm, len);
    forall j | 0 <= j < NUM_BONES
      ensures c[j] == r[j]
    {
    }
  }

  /**
   * The pose a tick leaves in the table `bs` and the published hand `hand`, for a local
   * (`mine`) or remote avatar, the body orientation `basis`, a body at `body`, springs
   * on or off, the published hand `hand0` at the start of the tick and the hand's
   * `target`: every bone faces along `basis`; every bone outside the right arm (all
   * of them while springs are off, but a remote avatar's right hand) is at its rigid
   * position; the right hand is at the published hand whenever springs run or the
   * avatar is remote; while springs are off the published hand is untouched, and while
   * they run it is the target held within arm's length of the rigid shoulder.
   */
  predicate PosedAt(bs: seq<Bone>, hand: Vec3, mine: bool, basis: Basis, body: Vec3, springs: bool,
                    hand0: Vec3, target: Vec3, len: Vec3 -> real)
    requires |bs| == NUM_BONES && IsNorm(len) && ArmLength(len) >= 0.0
  {
    RigidPose(bs, basis, body, !mine, springs) &&
    (springs || !mine ==> bs[RIGHT_HAND].position == hand) &&
    (!springs ==> hand == hand0) &&
    (springs ==> hand == ClampReach(RigidPosition(RIGHT_SHOULDER, basis, body), target, ArmLength(len), len))
  }

  class Head {
    const isMine: bool
    const len: Vec3 -> real
    const yawBasis: real -> Basis
    const bones: array<Bone>
    const otherAvatarHandPosition: array<Vec3>
    const springForce: real := 6.0
    const springVelocityDecay: real := 16.0
    const bigSphereRadius: real := 0.3
    const bigSpherePosition: Vec3 := Vec3(0.0, 0.3, 2.0)

    var orientation: Basis
    var bodyPosition: Vec3
    var velocity: Vec3
    var thrust: Vec3
    var bodyYaw: real
    var bodyPitch: real
    var bodyRoll: real
    var bodyYawDelta: real
    var mode: AvatarMode
    var maxArmLength: real
    var usingBodySprings: bool
    var movedHandOffset: Vec3
    var mousePressed: bool
    var driveKeys: DriveKeys
    var closestOtherAvatar: int
    var numOtherAvatarsInView: int
    var handPosition: Vec3
    var head: HeadState
    var transmitterPackets: int
    var transmitterHz: Rate
    var transmitterTimer: real

    /** The bone table holds the fixed skeleton: parents, rest offsets, their lengths, default radius and stiffness. */
    ghost predicate Rigged()
      reads bones
    {
      bones.Length == NUM_BONES && IsTable(bones[..], len)
    }

    ghost predicate Valid()
      reads this, bones
    {
      IsNorm(len) && Rigged() &&
      maxArmLength == ArmLength(len) && maxArmLength >= 0.0 &&
      otherAvatarHandPosition.Length >= TEST_HAND_SLOTS &&
      -1 <= closestOtherAvatar < otherAvatarHandPosition.Length &&
      0 <= numOtherAvatarsInView <= otherAvatarHandPosition.Length &&
      head.eyeContact && EyesTogether(head) && BrowsMirrored(head) &&
      transmitterPackets >= 0
    }

    constructor (isMine: bool, maxOtherAvatars: int, len: Vec3 -> real, yawBasis: real -> Basis)
      requires IsNorm(len) && maxOtherAvatars >= TEST_HAND_SLOTS
      ensures Valid() && fresh(bones) && fresh(otherAvatarHandPosition)
      ensures this.isMine == isMine && this.len == len && this.yawBasis == yawBasis
      ensures otherAvatarHandPosition.Length == maxOtherAvatars
      ensures forall i :: 0 <= i < maxOtherAvatars ==> otherAvatarHandPosition[i] == TestHand(i)
      ensures bodyYaw == -90.0 && orientation == yawBasis(-90.0) && bodyPosition == Zero
      ensures velocity == Zero && thrust == Zero && bodyYawDelta == 0.0 && mode == Standing
      ensures closestOtherAvatar == 0 && numOtherAvatarsInView == 0 && usingBodySprings && !mousePressed
      ensures transmitterPackets == 0 && transmitterHz == Finite(0.0) && transmitterTimer == 0.0 && head == InitialHead
      ensures bodyPitch == 0.0 && bodyRoll == 0.0 && driveKeys == NoKeys
      ensures movedHandOffset == Zero && handPosition == Zero
      ensures InitialSkeleton(bones[..], len, yawBasis(-90.0), Zero, !isMine, Zero)
    {
      this.isMine := isMine;
      this.len := len;
      this.yawBasis := yawBasis;
      bones := new Bone[NUM_BONES](_ => InitialBone(PELVIS_SPINE));
      otherAvatarHandPosition := new Vec3[maxOtherAvatars](TestHand);
      orientation := Basis(Vec3(1.0, 0.0, 0.0), Vec3(0.0, 1.0, 0.0), Vec3(0.0, 0.0, 1.0));
      bodyPosition := Zero;
      velocity := Zero;
      thrust := Zero;
      closestOtherAvatar := 0;
      bodyYaw := -90.0;
      bodyPitch := 0.0;
      bodyRoll := 0.0;
      bodyYawDelta := 0.0;
      mousePressed := false;
      mode := Standing;
      maxArmLength := 0.0;
      transmitterHz := Finite(0.0);
      transmitterPackets := 0;
      transmitterTimer := 0.0;
      numOtherAvatarsInView := 0;
      driveKeys := NoKeys;
      head := InitialHead;
      movedHandOffset := Zero;
      usingBodySprings := true;
      handPosition := Zero;
      new;
      InitializeSkeleton();
      ArmLengthValue(len);
    }

    /** Lays out the fixed bone table, derives the bone lengths and the arm's reach, and poses the skeleton rigidly. */
    method InitializeSkeleton()
      requires bones.Length == NUM_BONES
      modifies this`maxArmLength, this`orientation, bones
      ensures Rigged() && maxArmLength == ArmLength(len)
      ensures orientation == yawBasis(bodyYaw)
      ensures InitialSkeleton(bones[..], len, orientation, bodyPosition, !isMine, handPosition)
    {
      MeasuredBoneTable();
      PoseMeasuredTable();
    }

    /** The forward-kinematics pass over the freshly measured table. */
    method PoseMeasuredTable()
      requires bones.Length == NUM_BONES && MeasuredTable(bones[..], len)
      requires forall b :: 0 <= b < NUM_BONES ==> bones[b].parent == ParentOf(b) && bones[b].defaultPose == DefaultPose(b)
      modifies this`orientation, bones
      ensures Rigged() && orientation == yawBasis(bodyYaw)
      ensures unchanged(this`maxArmLength)
      ensures InitialSkeleton(bones[..], len, orientation, bodyPosition, !isMine, handPosition)
    {
      ghost var measured := bones[..];
      UpdateSkeleton();
      PosedMeasuredTable(measured, bones[..], len, orientation, bodyPosition, !isMine, handPosition);
    }

    /** The bone table laid out with its lengths measured, and the arm's reach summed from them. */
    method MeasuredBoneTable()
      requires bones.Length == NUM_BONES
      modifies this`maxArmLength, bones
      ensures maxArmLength == ArmLength(len)
      ensures MeasuredTable(bones[..], len)
      ensures forall b :: 0 <= b < NUM_BONES ==> bones[b].parent == ParentOf(b) && bones[b].defaultPose == DefaultPose(b)
    {
      LayOutBoneTable();
      CalculateBoneLengths();
    }

    /** Every bone entry is reset and given its parent link and rest offset from the table. */
    method LayOutBoneTable()
      requires bones.Length == NUM_BONES
      modifies bones
      ensures forall b :: 0 <= b < NUM_BONES ==> bones[b] == InitialBone(b)
    {
      for b := 0 to NUM_BONES
        invariant forall j :: 0 <= j < b ==> bones[j] == InitialBone(j)
      {
        bones[b] := InitialBone(b);
      }
    }

    /** Each bone's length becomes the length of its rest offset; the arm's reach is the sum of its three bones. */
    method CalculateBoneLengths()
      requires bones.Length == NUM_BONES
      modifies this`maxArmLength, bones
      ensures forall b :: 0 <= b < NUM_BONES ==> bones[b] == old(bones[b]).(length := len(old(bones[b]).defaultPose))
      ensures maxArmLength == bones[RIGHT_UPPER_ARM].length + bones[RIGHT_FOREARM].length + bones[RIGHT_HAND].length
    {
      for b := 0 to NUM_BONES
        invariant forall j :: 0 <= j < b ==> bones[j] == old(bones[j]).(length := len(old(bones[j]).defaultPose))
        invariant forall j :: b <= j < NUM_BONES ==> bones[j] == old(bones[j])
      {
        bones[b] := bones[b].(length := len(bones[b].defaultPose));
      }
      maxArmLength := bones[RIGHT_UPPER_ARM].length + bones[RIGHT_FOREARM].length + bones[RIGHT_HAND].length;
    }

    /**
     * The forward-kinematics pass: the body orientation follows the body yaw, and in bone
     * order every bone takes its parent's orientation and position (the body's for the
     * root) plus its rest offset projected onto the body axes. A remotely driven avatar
     * pins its right hand to the published hand position on every step of the pass.
     */
    method UpdateSkeleton()
      requires bones.Length == NUM_BONES
      requires forall b :: 0 <= b < NUM_BONES ==> bones[b].parent == ParentOf(b) && bones[b].defaultPose == DefaultPose(b)
      modifies this`orientation, bones
      ensures orientation == yawBasis(bodyYaw)
      ensures forall b :: 0 <= b < NUM_BONES ==>
        bones[b] == old(bones[b]).(orientation := orientation,
                                   position := if !isMine && b == RIGHT_HAND then handPosition
                                               else RigidPosition(b, orientation, bodyPosition))
      ensures old(Rigged()) ==> Rigged()
      ensures PosedFrom(bones[..], old(bones[..]), orientation, bodyPosition, !isMine, handPosition)
    {
      ghost var start := bones[..];
      PoseAllBones();
      if old(Rigged()) {
        MovedBonesKeepTable(start, bones[..], len);
      }
    }

    /** The loop of the forward-kinematics pass. */
    method PoseAllBones()
      requires bones.Length == NUM_BONES
      requires forall b :: 0 <= b < NUM_BONES ==> bones[b].parent == ParentOf(b) && bones[b].defaultPose == DefaultPose(b)
      modifies this`orientation, bones
      ensures orientation == yawBasis(bodyYaw)
      ensures forall b :: 0 <= b < NUM_BONES ==>
        bones[b] == old(bones[b]).(orientation := orientation,
                                   position := if !isMine && b == RIGHT_HAND then handPosition
                                               else RigidPosition(b, orientation, bodyPosition))
    {
      orientation := yawBasis(bodyYaw);
      LeavesOfTheTree(RIGHT_HAND);
      var b := 0;
      while b < NUM_BONES
        invariant 0 <= b <= NUM_BONES
        invariant orientation == yawBasis(bodyYaw)
        invariant forall j :: 0 <= j < b && (isMine || j != RIGHT_HAND) ==>
          bones[j] == old(bones[j]).(orientation := orientation, position := RigidPosition(j, orientation, bodyPosition))
        invariant forall j :: b <= j < NUM_BONES && (isMine || j != RIGHT_HAND) ==> bones[j] == old(bones[j])
        invariant !isMine && b == 0 ==> bones[RIGHT_HAND] == old(bones[RIGHT_HAND])
        invariant !isMine && 0 < b <= RIGHT_HAND ==>
          bones[RIGHT_HAND] == old(bones[RIGHT_HAND]).(position := handPosition)
        invariant !isMine && b == RIGHT_HAND + 1 ==>
          bones[RIGHT_HAND] == old(bones[RIGHT_HAND]).(orientation := orientation,
            position := Add(handPosition, Project(DefaultPose(RIGHT_HAND), orientation)))
        invariant !isMine && b > RIGHT_HAND + 1 ==>
          bones[RIGHT_HAND] == old(bones[RIGHT_HAND]).(orientation := orientation, position := handPosition)
      {
        PoseBone(b);
        b := b + 1;
      }
    }

    /**
     * One step of the forward-kinematics pass: bone `b` takes its parent's orientation and
     * position (the body's for the root) plus its projected rest offset; a remotely driven
     * avatar pins its right hand to the published hand position first.
     */
    method PoseBone(b: int)
      requires bones.Length == NUM_BONES && 0 <= b < NUM_BONES
      requires bones[b].parent == ParentOf(b) && bones[b].defaultPose == DefaultPose(b)
      requires ParentOf(b) != NULL_BONE ==>
        bones[ParentOf(b)].orientation == orientation &&
        bones[ParentOf(b)].position == RigidPosition(ParentOf(b), orientation, bodyPosition)
      modifies bones
      ensures bones[b] == old(bones[b]).(orientation := orientation,
        position := if !isMine && b == RIGHT_HAND then Add(handPosition, Project(DefaultPose(RIGHT_HAND), orientation))
                    else RigidPosition(b, orientation, bodyPosition))
      ensures !isMine && b != RIGHT_HAND ==> bones[RIGHT_HAND] == old(bones[RIGHT_HAND]).(position := handPosition)
      ensures forall j :: 0 <= j < NUM_BONES && j != b && (isMine || j != RIGHT_HAND) ==> bones[j] == old(bones[j])
    {
      var p := bones[b].parent;
      if p == NULL_BONE {
        bones[b] := bones[b].(orientation := orientation, position := bodyPosition);
      } else {
        bones[b] := bones[b].(orientation := bones[p].orientation, position := bones[p].position);
      }
      if !isMine {
        bones[RIGHT_HAND] := bones[RIGHT_HAND].(position := handPosition);
      }
      var rotated := Project(bones[b].defaultPose, bones[b].orientation);
      bones[b] := bones[b].(position := Add(bones[b].position, rotated));
    }
  
    /** Every bone's spring-follow state restarts at its current position, at rest. */
    method InitializeBodySprings()
      requires bones.Length == NUM_BONES
      modifies bones
      ensures bones[..] == RestartedSprings(old(bones[..]))
    {
      for b := 0 to NUM_BONES
        invariant forall j :: 0 <= j < b ==>
          bones[j] == old(bones[j]).(springyPosition := old(bones[j]).position, springyVelocity := Zero)
        invariant forall j :: b <= j < NUM_BONES ==> bones[j] == old(bones[j])
      {
        bones[b] := bones[b].(springyPosition := bones[b].position, springyVelocity := Zero);
      }
    }

    /**
     * The spring-follow pass over the whole table in bone order; it changes only the
     * spring-follow state, so the table still agrees with the skeleton.
     */
    method UpdateBodySprings(dt: real)
      requires Rigged()
      modifies bones
      ensures Rigged()
      ensures ParentsPrecede(old(bones[..]))
      // The spring-pass equation is stated for `n == NUM_BONES` with `SpringPass` as its trigger,
      // so that a caller unfolds the pass only where it asks about it.
      ensures forall n {:trigger SpringPass(old(bones[..]), n, bodyPosition, springForce, springVelocityDecay, dt, len)} ::
        n == NUM_BONES ==> bones[..] == SpringPass(old(bones[..]), n, bodyPosition, springForce, springVelocityDecay, dt, len)
      ensures SamePose(old(bones[..]), bones[..])
    {
      ghost var start := bones[..];
      TableParentsPrecede(start, len);
      RunSpringPass(dt);
      ghost var after := bones[..];
      SameRigKeepsTable(start, after, len);
      SameRigKeepsPose(start, after);
    }

    /** The loop of the spring-follow pass: bone `b`'s step, for every bone in order. */
    method RunSpringPass(dt: real)
      requires bones.Length == NUM_BONES && ParentsPrecede(bones[..])
      modifies bones
      ensures bones[..] == SpringPass(old(bones[..]), bones.Length, bodyPosition, springForce, springVelocityDecay, dt, len)
    {
      ghost var start := bones[..];
      var b := 0;
      while b < NUM_BONES
        invariant 0 <= b <= NUM_BONES
        invariant bones[..] == SpringPass(start, b, bodyPosition, springForce, springVelocityDecay, dt, len)
      {
        SpringBone(b, dt);
        b := b + 1;
      }
    }

    /** Bone `b`'s step of the spring-follow pass. */
    method SpringBone(b: int, dt: real)
      requires bones.Length == NUM_BONES && 0 <= b < NUM_BONES && ParentsPrecede(bones[..])
      modifies bones
      ensures bones[..] == SpringStep(old(bones[..]), b, bodyPosition, springForce, springVelocityDecay, dt, len)
    {
      CoupleBone(b, dt);
      AdvanceBone(b, dt);
    }

    /** The structural impulse of bone `b`'s spring, taken from it and given to its parent. */
    method CoupleBone(b: int, dt: real)
      requires bones.Length == NUM_BONES && 0 <= b < NUM_BONES && ParentsPrecede(bones[..])
      modifies bones
      ensures bones[..] == Coupled(old(bones[..]), b, bodyPosition, springForce, dt, len)
    {
      ghost var bs := bones[..];
      var p := bones[b].parent;
      var springVector := Sub(bones[b].springyPosition, if p == NULL_BONE then bodyPosition else bones[p].springyPosition);
      assert springVector == SpringVector(bs, b, bodyPosition);
      var length := len(springVector);
      if length > 0.0 {
        var springDirection := Scale(1.0 / length, springVector);
        var force := (length - bones[b].length) * springForce * dt;
        ghost var impulse := StructuralImpulse(springVector, bs[b].length, springForce, dt, len);
        assert Scale(force, springDirection) == impulse;
        bones[b] := bones[b].(springyVelocity := Sub(bones[b].springyVelocity, Scale(force, springDirection)));
        ghost var pulled := bones[..];
        assert pulled == bs[b := bs[b].(springyVelocity := Sub(bs[b].springyVelocity, impulse))];
        if p != NULL_BONE {
          bones[p] := bones[p].(springyVelocity := Add(bones[p].springyVelocity, Scale(force, springDirection)));
          assert bones[..] == pulled[p := pulled[p].(springyVelocity := Add(pulled[p].springyVelocity, impulse))];
        }
      }
    }

    /** Bone `b`'s corrective pull and damping, then its spring position advanced by the damped velocity. */
    method AdvanceBone(b: int, dt: real)
      requires bones.Length == NUM_BONES && 0 <= b < NUM_BONES
      modifies bones
      ensures bones[..] == old(bones[..])[b := Advanced(old(bones[b]), springVelocityDecay, dt)]
    {
      var bone := bones[b];
      var pull := Scale(dt, Scale(bone.springTightness, Sub(bone.position, bone.springyPosition)));
      var velocity := Add(bone.springyVelocity, pull);
      var decay := 1.0 - springVelocityDecay * dt;
      if decay > 0.0 {
        velocity := Scale(decay, velocity);
      } else {
        velocity := Zero;
      }
      assert velocity == Damp(Add(bone.springyVelocity, CorrectivePull(bone, dt)), springVelocityDecay, dt);
      bones[b] := bone.(springyVelocity := velocity, springyPosition := Add(bone.springyPosition, velocity));
    }

    /**
     * The collision test against the test sphere: when the body's bounding sphere
     * overlaps it, every bone inside it is pushed out onto its surface with a spring
     * impulse and an impulse to the body; a tick with such contact switches springs on
     * (restarting them if they were off), adds gravity and applies the ground contact.
     */
    method UpdateBigSphereCollisionTest(dt: real)
      requires Rigged()
      modifies this`velocity, this`bodyPosition, this`usingBodySprings, bones
      ensures Rigged()
      ensures Response(bones[..], bodyPosition, velocity, usingBodySprings) ==
        SphereResponse(old(bones[..]), old(bodyPosition), old(velocity), old(usingBodySprings),
                       bigSpherePosition, bigSphereRadius, dt, len)
    {
      ghost var start := bones[..];
      var vectorFromMyBodyToBigSphere := Sub(bodyPosition, bigSpherePosition);
      var jointCollision := false;
      var distanceToBigSphere := len(vectorFromMyBodyToBigSphere);
      if distanceToBigSphere < BODY_BOUNDING_RADIUS + bigSphereRadius {
        jointCollision := CollideAllBones(dt);
        if jointCollision {
          if !usingBodySprings {
            usingBodySprings := true;
            InitializeBodySprings();
          }
          velocity := Add(velocity, GRAVITY);
          if bodyPosition.y < 0.0 {
            bodyPosition := bodyPosition.(y := 0.0);
            if velocity.y < 0.0 {
              velocity := velocity.(y := velocity.y * GROUND_RESTITUTION);
            }
          }
        }
      }
      MovedBonesKeepTable(start, bones[..], len);
    }

    /** The per-bone pass of the collision test, in bone order; it reports whether any bone penetrated. */
    method CollideAllBones(dt: real) returns (jointCollision: bool)
      requires bones.Length == NUM_BONES
      modifies this`velocity, bones
      ensures jointCollision == AnyPenetrates(old(bones[..]), NUM_BONES, bigSpherePosition, bigSphereRadius, len)
      ensures bones[..] == CollidedTable(old(bones[..]), bigSpherePosition, bigSphereRadius, dt, len)
      ensures velocity == VelocityAfterBones(old(bones[..]), NUM_BONES, old(velocity), bigSpherePosition, bigSphereRadius, dt, len)
    {
      ghost var start := bones[..];
      jointCollision := false;
      for b := 0 to NUM_BONES
        invariant forall j :: 0 <= j < b ==> bones[j] == CollideBone(start[j], bigSpherePosition, bigSphereRadius, dt, len)
        invariant forall j :: b <= j < NUM_BONES ==> bones[j] == start[j]
        invariant velocity == VelocityAfterBones(start, b, old(velocity), bigSpherePosition, bigSphereRadius, dt, len)
        invariant jointCollision == AnyPenetrates(start, b, bigSpherePosition, bigSphereRadius, len)
      {
        var hit := CollideBoneAt(b, dt);
        AnyPenetratesStep(start, b, bigSpherePosition, bigSphereRadius, len);
        jointCollision := jointCollision || hit;
      }
      assert bones[..] == CollidedTable(start, bigSpherePosition, bigSphereRadius, dt, len);
    }

    /** Bone `b` of the collision test's per-bone pass: pushed out of the sphere with its impulses, if it is inside. */
    method CollideBoneAt(b: int, dt: real) returns (hit: bool)
      requires bones.Length == NUM_BONES && 0 <= b < NUM_BONES
      modifies this`velocity, bones
      ensures hit == Penetrates(old(bones[b]), bigSpherePosition, bigSphereRadius, len)
      ensures bones[b] == CollideBone(old(bones[b]), bigSpherePosition, bigSphereRadius, dt, len)
      ensures forall j :: 0 <= j < NUM_BONES && j != b ==> bones[j] == old(bones[j])
      ensures velocity == if Resolvable(old(bones[b]), bigSpherePosition, bigSphereRadius, len)
                          then Add(old(velocity), BodyImpulse(old(bones[b]), bigSpherePosition, bigSphereRadius, dt, len))
                          else old(velocity)
    {
      var vectorFromJointToBigSphereCenter := Sub(bones[b].position, bigSpherePosition);
      var distanceToBigSphereCenter := len(vectorFromJointToBigSphereCenter);
      var combinedRadius := bones[b].radius + bigSphereRadius;
      hit := false;
      if distanceToBigSphereCenter < combinedRadius {
        hit := true;
        if distanceToBigSphereCenter > 0.0 {
          var directionVector := Scale(1.0 / distanceToBigSphereCenter, vectorFromJointToBigSphereCenter);
          var penetration := 1.0 - distanceToBigSphereCenter / combinedRadius;
          var collisionForce := Scale(penetration, vectorFromJointToBigSphereCenter);
          bones[b] := bones[b].(springyVelocity := Add(bones[b].springyVelocity, Scale(dt, Scale(BONE_IMPULSE_SCALE, collisionForce))));
          velocity := Add(velocity, Scale(dt, Scale(BODY_IMPULSE_SCALE, collisionForce)));
          bones[b] := bones[b].(position := Add(bigSpherePosition, Scale(combinedRadius, directionVector)));
        }
      }
    }
  
    /**
     * Starting hand movement switches the spring-follow state on, restarting it from the
     * current pose if it was off (stopping hand movement does nothing).
     */
    method StartHandMovement()
      requires bones.Length == NUM_BONES
      modifies this`usingBodySprings, bones
      ensures usingBodySprings
      ensures bones[..] == if old(usingBodySprings) then old(bones[..]) else RestartedSprings(old(bones[..]))
    {
      if !usingBodySprings {
        InitializeBodySprings();
        usingBodySprings := true;
      }
    }

    method SetHandMovementValues(handOffset: Vec3)
      modifies this`movedHandOffset
      ensures movedHandOffset == handOffset
    {
      movedHandOffset := handOffset;
    }

    method SetMousePressed(d: bool)
      modifies this`mousePressed
      ensures mousePressed == d
    {
      mousePressed := d;
    }

    /** Whether the right hand is snapped onto the nearest other avatar's hand: springs on, an avatar in reach, the mouse held. */
    predicate Grabbing()
      reads this`usingBodySprings, this`closestOtherAvatar, this`mousePressed
    {
      usingBodySprings && closestOtherAvatar != -1 && mousePressed
    }

    /** The hand the right hand snaps to: the nearest other avatar's while grabbing (nothing otherwise). */
    function GrabbedHand(): Vec3
      reads this`usingBodySprings, this`closestOtherAvatar, this`mousePressed, otherAvatarHandPosition
      requires -1 <= closestOtherAvatar < otherAvatarHandPosition.Length
    {
      if Grabbing() then otherAvatarHandPosition[closestOtherAvatar] else Zero
    }

    /** The right hand's target this tick: moved by the hand offset, or the nearest other hand while grabbing. */
    function HandGoal(): Vec3
      reads this, bones, otherAvatarHandPosition
      requires Valid()
    {
      HandTarget(bones[RIGHT_HAND].position, movedHandOffset, orientation, Grabbing(), GrabbedHand())
    }

    /**
     * The reach controller: the right hand goes to its target held within arm's length of
     * the shoulder, the elbow (the upper-arm bone) is placed from shoulder and hand and
     * bent across the arm, the wrist (the forearm bone) goes 70% of the way from elbow to
     * hand, and the published hand position becomes the right hand's.
     */
    method UpdateHandMovement()
      requires Valid()
      modifies this`handPosition, bones
      ensures Valid()
      ensures var shoulder := bones[RIGHT_SHOULDER].position;
        var hand := ClampReach(shoulder, old(HandGoal()), maxArmLength, len);
        var arm := Sub(hand, shoulder);
        var elbow := ElbowPosition(shoulder, arm, Cross(orientation.front, arm), maxArmLength, len(arm));
        bones[RIGHT_HAND] == old(bones[RIGHT_HAND]).(position := hand) &&
        bones[RIGHT_UPPER_ARM] == old(bones[RIGHT_UPPER_ARM]).(position := elbow) &&
        bones[RIGHT_FOREARM] == old(bones[RIGHT_FOREARM]).(position := WristPosition(elbow, hand)) &&
        handPosition == hand
      ensures forall j :: 0 <= j < NUM_BONES && j != RIGHT_HAND && j != RIGHT_UPPER_ARM && j != RIGHT_FOREARM ==>
        bones[j] == old(bones[j])
      ensures len(Sub(handPosition, bones[RIGHT_SHOULDER].position)) <= maxArmLength
      ensures bones[..] == ReachedTable(old(bones[..]), old(HandGoal()), orientation.front, maxArmLength, len)
    {
      ghost var start := bones[..];
      ghost var goal := HandGoal();
      var armVector, distance := ReachHand();
      var shoulder := bones[RIGHT_SHOULDER].position;
      var newElbowPosition := Add(shoulder, Scale(ONE_HALF, armVector));
      var perpendicular := Cross(orientation.front, armVector);
      if distance != 0.0 {
        newElbowPosition := Add(newElbowPosition, Scale(ONE_HALF, Scale(1.0 - maxArmLength / distance, perpendicular)));
      }
      bones[RIGHT_UPPER_ARM] := bones[RIGHT_UPPER_ARM].(position := newElbowPosition);
      var vv := Sub(bones[RIGHT_HAND].position, bones[RIGHT_UPPER_ARM].position);
      var newWristPosition := Add(bones[RIGHT_UPPER_ARM].position, Scale(WRIST_FRACTION, vv));
      bones[RIGHT_FOREARM] := bones[RIGHT_FOREARM].(position := newWristPosition);
      handPosition := bones[RIGHT_HAND].position;
      MovedBonesKeepTable(start, bones[..], len);
      ArmPlacedIsReached(start, bones[..], goal, orientation.front, maxArmLength, len);
    }

    /**
     * The first half of the reach controller: the right hand is moved to its target and
     * pulled back to arm's length; the arm vector and its length are returned.
     */
    method ReachHand() returns (armVector: Vec3, distance: real)
      requires Valid()
      modifies bones
      ensures var hand := ClampReach(bones[RIGHT_SHOULDER].position, old(HandGoal()), maxArmLength, len);
        bones[RIGHT_HAND] == old(bones[RIGHT_HAND]).(position := hand) &&
        armVector == Sub(hand, bones[RIGHT_SHOULDER].position) && distance == len(armVector)
      ensures forall j :: 0 <= j < NUM_BONES && j != RIGHT_HAND ==> bones[j] == old(bones[j])
    {
      ghost var goal := HandGoal();
      var transformedHandMovement := HandMovement(movedHandOffset, orientation);
      bones[RIGHT_HAND] := bones[RIGHT_HAND].(position := Add(bones[RIGHT_HAND].position, transformedHandMovement));
      if usingBodySprings && closestOtherAvatar != -1 && mousePressed {
        bones[RIGHT_HAND] := bones[RIGHT_HAND].(position := otherAvatarHandPosition[closestOtherAvatar]);
      }
      var shoulder := bones[RIGHT_SHOULDER].position;
      armVector := Sub(bones[RIGHT_HAND].position, shoulder);
      distance := len(armVector);
      if distance > maxArmLength {
        var armNormal := Scale(1.0 / distance, armVector);
        armVector := Scale(maxArmLength, armNormal);
        distance := maxArmLength;
        bones[RIGHT_HAND] := bones[RIGHT_HAND].(position := Add(shoulder, armVector));
      }
    }
  
    /**
     * The nearest-avatar scan of a locally driven avatar. Each other avatar, while free
     * slots remain, has its right-hand position copied into the next slot; it is kept
     * (the slot count advances and it becomes the closest) only when it is within arm's
     * length of the right shoulder and nearer than every hand kept before it.
     */
    method ScanOtherAvatars(agents: seq<Agent>)
      requires Valid()
      modifies otherAvatarHandPosition, this`closestOtherAvatar, this`numOtherAvatarsInView
      ensures Valid()
      ensures ScanFound(otherAvatarHandPosition[..], old(otherAvatarHandPosition[..]), numOtherAvatarsInView,
                        closestOtherAvatar, agents, len, bones[RIGHT_SHOULDER].position, maxArmLength)
    {
      ArmLengthValue(len);
      ghost var initial := otherAvatarHandPosition[..];
      ghost var shoulder := bones[RIGHT_SHOULDER].position;
      var closestDistance := ScanAgents(agents);
      ScanPrefixState(initial, agents, |agents|, len, shoulder, maxArmLength);
      ScanComplete(otherAvatarHandPosition[..], initial, numOtherAvatarsInView, closestOtherAvatar,
                   ScanPicks(initial, agents, |agents|, len, shoulder, maxArmLength), agents, closestDistance,
                   len, shoulder, maxArmLength);
    }

    /** The scan's loop over the agents, examining each avatar while a slot is free. */
    method ScanAgents(agents: seq<Agent>) returns (closestDistance: real)
      requires bones.Length == NUM_BONES
      modifies otherAvatarHandPosition, this`closestOtherAvatar, this`numOtherAvatarsInView
      ensures closestOtherAvatar == numOtherAvatarsInView - 1
      ensures ScanSlots(otherAvatarHandPosition[..], numOtherAvatarsInView, closestDistance) ==
        ScanPrefix(old(otherAvatarHandPosition[..]), agents, |agents|, len, bones[RIGHT_SHOULDER].position, maxArmLength)
    {
      var shoulder := bones[RIGHT_SHOULDER].position;
      var reach := maxArmLength;
      closestOtherAvatar := -1;
      closestDistance := CLOSEST_START_DISTANCE;
      numOtherAvatarsInView := 0;
      ghost var initial := otherAvatarHandPosition[..];
      var i := 0;
      while i < |agents|
        invariant 0 <= i <= |agents|
        invariant closestOtherAvatar == numOtherAvatarsInView - 1
        invariant ScanSlots(otherAvatarHandPosition[..], numOtherAvatarsInView, closestDistance) ==
          ScanPrefix(initial, agents, i, len, shoulder, reach)
      {
        if agents[i].isAvatar && numOtherAvatarsInView < otherAvatarHandPosition.Length {
          closestDistance := ExamineHand(agents[i].rightHand, closestDistance, shoulder, reach);
        }
        i := i + 1;
      }
    }

    /**
     * One avatar of the scan: its hand goes into the next free slot, and is kept there
     * when it is within `reach` of the shoulder and nearer than `closestDistance`.
     */
    method ExamineHand(hand: Vec3, closestDistance: real, shoulder: Vec3, reach: real) returns (newClosest: real)
      requires 0 <= numOtherAvatarsInView < otherAvatarHandPosition.Length
      modifies otherAvatarHandPosition, this`closestOtherAvatar, this`numOtherAvatarsInView
      ensures var r := Examine(old(otherAvatarHandPosition[..]), old(numOtherAvatarsInView), closestDistance, hand,
                               len, shoulder, reach);
        otherAvatarHandPosition[..] == r.hands && numOtherAvatarsInView == r.count && newClosest == r.nearest &&
        closestOtherAvatar == if r.count > old(numOtherAvatarsInView) then old(numOtherAvatarsInView) else old(closestOtherAvatar)
    {
      newClosest := closestDistance;
      otherAvatarHandPosition[numOtherAvatarsInView] := hand;
      var v := Sub(shoulder, otherAvatarHandPosition[numOtherAvatarsInView]);
      var distance := len(v);
      if distance < reach {
        if distance < closestDistance {
          newClosest := distance;
          closestOtherAvatar := numOtherAvatarsInView;
          numOtherAvatarsInView := numOtherAvatarsInView + 1;
        }
      }
    }

    /** The turn rate a tick starts from: after the rotation keys on the local avatar, as it was on a remote one. */
    function Turn(yawDelta: real, dt: real): (r: real)
      reads this`driveKeys
      ensures !isMine ==> r == yawDelta
      ensures isMine ==> r - yawDelta == YAW_MAG * dt * Direction(driveKeys.rotateLeft, driveKeys.rotateRight)
    {
      if isMine then YawDeltaAfterKeys(yawDelta, driveKeys, dt) else yawDelta
    }

    /**
     * One simulation tick, in the source's order: the nearest-avatar scan (local avatar
     * only), the sphere collision test, the rigid pose, the reach controller and spring
     * pass while springs run, driving and the motion mode, and the idle head. The head
     * starts the tick at the body's yaw, pitch and roll.
     */
    method Simulate(dt: real, agents: seq<Agent>, draws: IdleDraws)
      requires Valid()
      modifies this, bones, otherAvatarHandPosition
      ensures Valid()
      ensures isMine ==> ScanFound(otherAvatarHandPosition[..], old(otherAvatarHandPosition[..]), numOtherAvatarsInView,
                                   closestOtherAvatar, agents, len, old(bones[RIGHT_SHOULDER].position), maxArmLength)
      ensures !isMine ==> closestOtherAvatar == old(closestOtherAvatar) && numOtherAvatarsInView == old(numOtherAvatarsInView) &&
                          otherAvatarHandPosition[..] == old(otherAvatarHandPosition[..])
      ensures orientation == yawBasis(old(bodyYaw))
      ensures var body := SphereResponse(old(bones[..]), old(bodyPosition), old(velocity), old(usingBodySprings),
                                         bigSpherePosition, bigSphereRadius, dt, len).position;
        PosedAt(bones[..], handPosition, isMine, orientation, body, usingBodySprings, old(handPosition),
                HandTarget(if isMine then RigidPosition(RIGHT_HAND, orientation, body) else old(handPosition),
                           movedHandOffset, orientation, Grabbing(), GrabbedHand()), len)
      ensures thrust == if isMine then Thrust(driveKeys, orientation) else old(thrust)
      ensures var m := SphereResponse(old(bones[..]), old(bodyPosition), old(velocity), old(usingBodySprings),
                                      bigSpherePosition, bigSphereRadius, dt, len);
        usingBodySprings == m.usingSprings &&
        velocity == NextVelocity(m.velocity, thrust, dt) &&
        bodyPosition == NextPosition(m.position, m.velocity, thrust, dt)
      ensures var m := SphereResponse(old(bones[..]), old(bodyPosition), old(velocity), old(usingBodySprings),
                                      bigSpherePosition, bigSphereRadius, dt, len);
        mode == ModeFor(len(m.velocity), Turn(old(bodyYawDelta), dt))
      ensures bodyYaw == (if isMine then TurnedYaw(old(bodyYaw), Turn(old(bodyYawDelta), dt), dt) else old(bodyYaw))
      ensures bodyYawDelta == DecayedYawDelta(Turn(old(bodyYawDelta), dt), dt)
      ensures head == IdleNoiseStep(EyeContactStep(HeadRestStep(old(head).(yaw := bodyYaw, pitch := bodyPitch, roll := bodyRoll), dt), draws), draws)
    {
      ghost var m := SphereResponse(bones[..], bodyPosition, velocity, usingBodySprings,
                                    bigSpherePosition, bigSphereRadius, dt, len);
      ghost var turn := Turn(bodyYawDelta, dt);
      SimulateBody(dt, agents);
      assert velocity == m.velocity && bodyPosition == m.position;
      assert Turn(bodyYawDelta, dt) == turn;
      SimulateMotion(dt, draws);
    }

    /**
     * The motion part of a tick: driving and the motion mode, then the idle head, which
     * starts at the body's yaw, pitch and roll. The pose, the published hand, the scan
     * and the grab state are left as the body part of the tick set them.
     */
    method SimulateMotion(dt: real, draws: IdleDraws)
      requires Valid()
      modifies this`thrust, this`bodyYawDelta, this`mode, this`bodyYaw, this`velocity, this`bodyPosition, this`head
      ensures Valid()
      ensures bones[..] == old(bones[..]) && handPosition == old(handPosition) && orientation == old(orientation)
      ensures otherAvatarHandPosition[..] == old(otherAvatarHandPosition[..]) &&
              closestOtherAvatar == old(closestOtherAvatar) && numOtherAvatarsInView == old(numOtherAvatarsInView)
      ensures usingBodySprings == old(usingBodySprings) && mousePressed == old(mousePressed) && movedHandOffset == old(movedHandOffset)
      ensures thrust == if isMine then Thrust(driveKeys, orientation) else old(thrust)
      ensures mode == ModeFor(len(old(velocity)), Turn(old(bodyYawDelta), dt))
      ensures bodyYaw == (if isMine then TurnedYaw(old(bodyYaw), Turn(old(bodyYawDelta), dt), dt) else old(bodyYaw))
      ensures bodyYawDelta == DecayedYawDelta(Turn(old(bodyYawDelta), dt), dt)
      ensures velocity == NextVelocity(old(velocity), thrust, dt)
      ensures bodyPosition == NextPosition(old(bodyPosition), old(velocity), thrust, dt)
      ensures head == IdleNoiseStep(EyeContactStep(HeadRestStep(old(head).(yaw := bodyYaw, pitch := bodyPitch, roll := bodyRoll), dt), draws), draws)
    {
      Drive(dt);
      UpdateIdleHead(dt, draws);
    }

    /** The body part of a tick: scan, collision test, rigid pose, then reach and springs while springs run. */
    method SimulateBody(dt: real, agents: seq<Agent>)
      requires Valid()
      modifies this`closestOtherAvatar, this`numOtherAvatarsInView, otherAvatarHandPosition,
               this`velocity, this`bodyPosition, this`usingBodySprings, this`orientation, this`handPosition, bones
      ensures Valid()
      ensures isMine ==> ScanFound(otherAvatarHandPosition[..], old(otherAvatarHandPosition[..]), numOtherAvatarsInView,
                                   closestOtherAvatar, agents, len, old(bones[RIGHT_SHOULDER].position), maxArmLength)
      ensures !isMine ==> closestOtherAvatar == old(closestOtherAvatar) && numOtherAvatarsInView == old(numOtherAvatarsInView) &&
                          otherAvatarHandPosition[..] == old(otherAvatarHandPosition[..])
      ensures orientation == yawBasis(bodyYaw)
      ensures PosedAt(bones[..], handPosition, isMine, orientation, bodyPosition, usingBodySprings, old(handPosition),
                      HandTarget(if isMine then RigidPosition(RIGHT_HAND, orientation, bodyPosition) else old(handPosition),
                                 movedHandOffset, orientation, Grabbing(), GrabbedHand()), len)
      ensures var m := SphereResponse(old(bones[..]), old(bodyPosition), old(velocity), old(usingBodySprings),
                                      bigSpherePosition, bigSphereRadius, dt, len);
        bodyPosition == m.position && velocity == m.velocity && usingBodySprings == m.usingSprings
    {
      if isMine {
        ScanOtherAvatars(agents);
      }
      UpdateBigSphereCollisionTest(dt);
      PoseBody(dt);
    }

    /** The rigid pose, then the reach controller and the spring pass while springs run. */
    method PoseBody(dt: real)
      requires Valid()
      modifies this`orientation, this`handPosition, bones
      ensures Valid()
      ensures orientation == yawBasis(bodyYaw)
      ensures PosedAt(bones[..], handPosition, isMine, orientation, bodyPosition, usingBodySprings, old(handPosition),
                      HandTarget(if isMine then RigidPosition(RIGHT_HAND, orientation, bodyPosition) else old(handPosition),
                                 movedHandOffset, orientation, old(Grabbing()), old(GrabbedHand())), len)
    {
      ghost var start := bones[..];
      TableLinks(start, len);
      UpdateSkeleton();
      SkeletonIsRigid(start, bones[..], orientation, bodyPosition, !isMine, handPosition);
      if usingBodySprings {
        ghost var posed := bones[..];
        ghost var goal := HandGoal();
        assert goal == HandTarget(if isMine then RigidPosition(RIGHT_HAND, orientation, bodyPosition) else old(handPosition),
                                  movedHandOffset, orientation, old(Grabbing()), old(GrabbedHand()));
        assert posed[RIGHT_SHOULDER].position == RigidPosition(RIGHT_SHOULDER, orientation, bodyPosition);
        ReachAndSpring(dt);
        ReachKeepsRigidPose(posed, bones[..], orientation, bodyPosition, !isMine);
      }
    }

    /** The reach controller places the arm, then the spring pass moves the springy copies. */
    method ReachAndSpring(dt: real)
      requires Valid()
      modifies this`handPosition, bones
      ensures Valid()
      ensures var hand := ClampReach(bones[RIGHT_SHOULDER].position, old(HandGoal()), maxArmLength, len);
        handPosition == hand && len(Sub(hand, bones[RIGHT_SHOULDER].position)) <= maxArmLength
      ensures handPosition == ClampReach(old(bones[RIGHT_SHOULDER].position), old(HandGoal()), maxArmLength, len)
      ensures var reached := ReachedTable(old(bones[..]), old(HandGoal()), orientation.front, maxArmLength, len);
        ParentsPrecede(reached) &&
        forall n {:trigger SpringPass(reached, n, bodyPosition, springForce, springVelocityDecay, dt, len)} ::
          n == NUM_BONES ==> bones[..] == SpringPass(reached, n, bodyPosition, springForce, springVelocityDecay, dt, len)
      ensures bones[RIGHT_HAND].position == handPosition
      ensures OnlyArmMoved(old(bones[..]), bones[..])
    {
      ghost var start := bones[..];
      UpdateHandMovement();
      ghost var reached := bones[..];
      UpdateBodySprings(dt);
      ArmMovedThenKept(start, reached, bones[..]);
    }

    /**
     * Driving and motion: a local avatar's keys set the thrust and turn rate; the mode
     * follows the current motion; a local avatar turns by the turn rate; the turn rate
     * decays; the thrust is integrated into the velocity and the position; the velocity decays.
     */
    method Drive(dt: real)
      modifies this`thrust, this`bodyYawDelta, this`mode, this`bodyYaw, this`velocity, this`bodyPosition
      ensures thrust == if isMine then Thrust(driveKeys, orientation) else old(thrust)
      ensures mode == ModeFor(len(old(velocity)), Turn(old(bodyYawDelta), dt))
      ensures bodyYaw == (if isMine then TurnedYaw(old(bodyYaw), Turn(old(bodyYawDelta), dt), dt) else old(bodyYaw))
      ensures bodyYawDelta == DecayedYawDelta(Turn(old(bodyYawDelta), dt), dt)
      ensures velocity == NextVelocity(old(velocity), thrust, dt)
      ensures bodyPosition == NextPosition(old(bodyPosition), old(velocity), thrust, dt)
    {
      if isMine {
        ApplyDriveKeys(dt);
      }
      ghost var turn := bodyYawDelta;
      assert turn == Turn(old(bodyYawDelta), dt);
      var translationalSpeed := len(velocity);
      var rotationalSpeed := Abs(bodyYawDelta);
      if translationalSpeed + rotationalSpeed > WALKING_THRESHOLD {
        mode := Walking;
      } else {
        mode := Interacting;
      }
      if isMine {
        bodyYaw := bodyYaw + bodyYawDelta * dt;
        assert bodyYaw == TurnedYaw(old(bodyYaw), turn, dt);
      }
      bodyYawDelta := bodyYawDelta * (1.0 - YAW_DECAY * dt);
      assert bodyYawDelta == DecayedYawDelta(turn, dt);
      velocity := Add(velocity, Scale(dt, thrust));
      bodyPosition := Add(bodyPosition, Scale(dt, velocity));
      velocity := Scale(1.0 - LIN_VEL_DECAY * dt, velocity);
    }

    /** The drive keys of a local avatar: the thrust is rebuilt from the held keys and the rotation keys change the turn rate. */
    method ApplyDriveKeys(dt: real)
      modifies this`thrust, this`bodyYawDelta
      ensures thrust == Thrust(driveKeys, orientation)
      ensures bodyYawDelta == YawDeltaAfterKeys(old(bodyYawDelta), driveKeys, dt)
    {
      var keys := driveKeys;
      var basis := orientation;
      thrust := Zero;
      PushKeys(keys.forward, keys.back, basis.front);
      PushKeys(keys.right, keys.left, basis.right);
      PushKeys(keys.up, keys.down, basis.up);
      if keys.rotateRight {
        bodyYawDelta := bodyYawDelta - YAW_MAG * dt;
      }
      if keys.rotateLeft {
        bodyYawDelta := bodyYawDelta + YAW_MAG * dt;
      }
    }

    /** One opposing key pair: the plus key adds `THRUST_MAG` along the axis to the thrust, then the minus key takes it away. */
    method PushKeys(plus: bool, minus: bool, axis: Vec3)
      modifies this`thrust
      ensures thrust == KeyPair(old(thrust), plus, minus, axis)
    {
      if plus {
        thrust := Add(thrust, Scale(THRUST_MAG, axis));
      }
      if minus {
        thrust := Sub(thrust, Scale(THRUST_MAG, axis));
      }
    }

    /** The idle head of a tick: set to the body's angles, then rest decay, eye contact and idle noise. */
    method UpdateIdleHead(dt: real, draws: IdleDraws)
      requires head.eyeContact && EyesTogether(head) && BrowsMirrored(head)
      modifies this`head
      ensures head.eyeContact && EyesTogether(head) && BrowsMirrored(head)
      ensures head == IdleNoiseStep(EyeContactStep(HeadRestStep(old(head).(yaw := bodyYaw, pitch := bodyPitch, roll := bodyRoll), dt), draws), draws)
    {
      head := head.(yaw := bodyYaw, pitch := bodyPitch, roll := bodyRoll);
      head := HeadRestStep(head, dt);
      head := EyeContactStep(head, draws);
      head := IdleNoiseStep(head, draws);
    }

    /** Re-centres the head: level, facing ahead and not leaning. */
    method Reset()
      modifies this`head
      ensures head == Recentered(old(head))
      ensures old(Valid()) ==> Valid()
    {
      head := head.(pitch := 0.0, yaw := 0.0, roll := 0.0);
      head := head.(leanForward := 0.0, leanSideways := 0.0);
    }

    /** Adds a lean impulse: `x` sideways and `z` forward. */
    method AddLean(x: real, z: real)
      modifies this`head
      ensures head == WithLean(old(head), x, z)
      ensures old(Valid()) ==> Valid()
    {
      head := head.(leanSideways := head.leanSideways + x);
      head := head.(leanForward := head.leanForward + z);
    }

    method SetNewHeadTarget(pitch: real, yaw: real)
      modifies this`head
      ensures head == WithHeadTarget(old(head), pitch, yaw)
      ensures old(Valid()) ==> Valid()
    {
      head := head.(pitchTarget := pitch);
      head := head.(yawTarget := yaw);
    }

    /**
     * The packet counter of the transmitter input, with the clock reading `nowMs` handed
     * in: the first packet starts the timer, and every `TRANSMITTER_COUNT`-th packet
     * samples the rate over the time since the timer started and restarts the timer.
     */
    method ProcessTransmitterData(nowMs: real)
      modifies this`transmitterPackets, this`transmitterTimer, this`transmitterHz
      ensures transmitterPackets == old(transmitterPackets) + 1
      ensures var timer := if old(transmitterPackets) == 0 then nowMs else old(transmitterTimer);
        if transmitterPackets % TRANSMITTER_COUNT == 0
        then transmitterHz == TransmitterRate(nowMs - timer) && transmitterTimer == nowMs
        else transmitterHz == old(transmitterHz) && transmitterTimer == timer
      ensures Counter(transmitterPackets, transmitterTimer, transmitterHz) ==
        CountPacket(Counter(old(transmitterPackets), old(transmitterTimer), old(transmitterHz)), nowMs)
      ensures old(Valid()) ==> Valid()
    {
      var first := transmitterPackets == 0;
      transmitterPackets := transmitterPackets + 1;
      if first {
        transmitterTimer := nowMs;
      }
      if transmitterPackets % TRANSMITTER_COUNT == 0 {
        transmitterHz := TransmitterRate(nowMs - transmitterTimer);
        transmitterTimer := nowMs;
      }
    }
  }
}
