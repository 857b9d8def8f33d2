/**
  The per-frame mapping from one detected hand to the four servo angles:
  servo 1 follows the horizontal offset of the index fingertip from the wrist,
  servo 2 the vertical offset, servo 3 their depth difference, and servo 4
  (the gripper) whether the hand is open.
 */
module ServoAngles {
  import opened Numeric
  import opened Hand

  /** Valid range of servos 1 to 3, in degrees. */
  const ARM_MAX: int := 180
  /** Valid range of servo 4, in degrees. */
  const GRIPPER_MAX: int := 60
  /** Gripper angle for an open hand. */
  const GRIPPER_OPEN: int := 60
  /** Gripper angle for a closed hand. */
  const GRIPPER_CLOSED: int := 0

  /** Pixel column of a landmark: `int(x * width)`. */
  function PixelX(l: Landmark, width: nat): int {
    Trunc(l.x * width as real)
  }

  /** Pixel row of a landmark: `int(y * height)`. */
  function PixelY(l: Landmark, height: nat): int {
    Trunc(l.y * height as real)
  }

  /** Horizontal pixel offset of the index fingertip from the wrist. */
  function HorizontalDistance(hand: seq<Landmark>, width: nat): int
    requires IsComplete(hand)
  {
    PixelX(hand[INDEX_FINGER_TIP], width) - PixelX(hand[WRIST], width)
  }

  /** Vertical pixel offset of the index fingertip from the wrist. */
  function VerticalDistance(hand: seq<Landmark>, height: nat): int
    requires IsComplete(hand)
  {
    PixelY(hand[INDEX_FINGER_TIP], height) - PixelY(hand[WRIST], height)
  }

  /** Absolute difference of the raw depths of the wrist and the index fingertip. */
  function DepthDistance(hand: seq<Landmark>): (d: real)
    requires IsComplete(hand)
    ensures 0.0 <= d
    ensures d == hand[WRIST].z - hand[INDEX_FINGER_TIP].z || d == hand[INDEX_FINGER_TIP].z - hand[WRIST].z
  {
    var diff := hand[WRIST].z - hand[INDEX_FINGER_TIP].z;
    if diff < 0.0 then -diff else diff
  }

  /** Servo 1: horizontal offset through `[-250, 250] -> [0, 180]`, truncated, clipped. */
  function ServoOneAngle(horizontal: int): (r: int)
    ensures 0 <= r <= ARM_MAX
  {
    Clip(Trunc(Interp(horizontal as real, -250.0, 250.0, 0.0, 180.0)), 0, ARM_MAX)
  }

  /** Servo 2: vertical offset through `[-300, 300] -> [0, 180]`, truncated, clipped. */
  function ServoTwoAngle(vertical: int): (r: int)
    ensures 0 <= r <= ARM_MAX
  {
    Clip(Trunc(Interp(vertical as real, -300.0, 300.0, 0.0, 180.0)), 0, ARM_MAX)
  }

  /** Servo 3: depth offset through `[0, 1] -> [0, 180]`, truncated, clipped. */
  function ServoThreeAngle(depth: real): (r: int)
    ensures 0 <= r <= ARM_MAX
  {
    Clip(Trunc(Interp(depth, 0.0, 1.0, 0.0, 180.0)), 0, ARM_MAX)
  }

  /** The three arm angles derived from one hand and the frame's height and width. */
  function CalculateServoAngles(hand: seq<Landmark>, height: nat, width: nat): (angles: (int, int, int))
    requires IsComplete(hand)
    ensures 0 <= angles.0 <= ARM_MAX && 0 <= angles.1 <= ARM_MAX && 0 <= angles.2 <= ARM_MAX
  {
    (ServoOneAngle(HorizontalDistance(hand, width)),
     ServoTwoAngle(VerticalDistance(hand, height)),
     ServoThreeAngle(DepthDistance(hand)))
  }

  /** Servo 4 before its clip: fully open for an open hand, shut otherwise. */
  function GripperAngle(open: bool): (r: int)
    ensures r == GRIPPER_OPEN || r == GRIPPER_CLOSED
    ensures r == GRIPPER_OPEN <==> open
  {
    if open then GRIPPER_OPEN else GRIPPER_CLOSED
  }

  /** The four angles sent for one frame: the three arm angles and the clipped gripper angle. */
  function FrameAngles(hand: seq<Landmark>, height: nat, width: nat): (angles: seq<int>)
    requires IsComplete(hand)
    ensures IsServoAngleSet(angles)
    ensures angles[3] == GRIPPER_OPEN <==> IsHandOpen(hand)
    ensures angles[3] == GRIPPER_CLOSED <==> !IsHandOpen(hand)
  {
    var (a1, a2, a3) := CalculateServoAngles(hand, height, width);
    [a1, a2, a3, Clip(GripperAngle(IsHandOpen(hand)), 0, GRIPPER_MAX)]
  }

  /** Exactly four angles, the first three in `[0, 180]` and the last in `[0, 60]`. */
  predicate IsServoAngleSet(angles: seq<int>) {
    && |angles| == 4
    && 0 <= angles[0] <= ARM_MAX
    && 0 <= angles[1] <= ARM_MAX
    && 0 <= angles[2] <= ARM_MAX
    && 0 <= angles[3] <= GRIPPER_MAX
  }

  /** The frame's list is the mapper's three angles followed by the unclipped gripper angle. */
  lemma FrameAnglesContents(hand: seq<Landmark>, height: nat, width: nat)
    requires IsComplete(hand)
    ensures var angles := CalculateServoAngles(hand, height, width);
      FrameAngles(hand, height, width) == [angles.0, angles.1, angles.2, GripperAngle(IsHandOpen(hand))]
  {
    var g := GripperAngle(IsHandOpen(hand));
    assert Clip(g, 0, GRIPPER_MAX) == g;
  }

  // ---- Reference definitions on integers ----

  /** Servo 1 in integer arithmetic: saturated at both ends, `floor(180 * (h + 250) / 500)` between. */
  function ServoOneReference(horizontal: int): int {
    if horizontal <= -250 then 0
    else if horizontal >= 250 then 180
    else (9 * (horizontal + 250)) / 25
  }

  /** Servo 2 in integer arithmetic: saturated at both ends, `floor(180 * (v + 300) / 600)` between. */
  function ServoTwoReference(vertical: int): int {
    if vertical <= -300 then 0
    else if vertical >= 300 then 180
    else (3 * (vertical + 300)) / 10
  }

  /** Servo 3 for a depth offset `d >= 0`: `floor(180 * d)` below 1, and 180 from 1 on. */
  function ServoThreeReference(depth: real): int
    requires 0.0 <= depth
  {
    if depth >= 1.0 then 180 else (180.0 * depth).Floor
  }

  lemma ServoOneMatchesReference(horizontal: int)
    ensures ServoOneAngle(horizontal) == ServoOneReference(horizontal)
  {
    if -250 < horizontal < 250 {
      var n := 9 * (horizontal + 250);
      var v := Interp(horizontal as real, -250.0, 250.0, 0.0, 180.0);
      var q := n / 25;
      assert 25.0 * v == n as real;
      assert 25 * q <= n < 25 * q + 25;
      assert q as real <= v < q as real + 1.0;
      TruncOfNonNegative(v);
    } else {
      TruncOfInt(if horizontal <= -250 then 0 else 180);
    }
  }

  lemma ServoTwoMatchesReference(vertical: int)
    ensures ServoTwoAngle(vertical) == ServoTwoReference(vertical)
  {
    if -300 < vertical < 300 {
      var n := 3 * (vertical + 300);
      var v := Interp(vertical as real, -300.0, 300.0, 0.0, 180.0);
      var q := n / 10;
      assert 10.0 * v == n as real;
      assert 10 * q <= n < 10 * q + 10;
      assert q as real <= v < q as real + 1.0;
      TruncOfNonNegative(v);
    } else {
      TruncOfInt(if vertical <= -300 then 0 else 180);
    }
  }

  lemma ServoThreeMatchesReference(depth: real)
    requires 0.0 <= depth
    ensures ServoThreeAngle(depth) == ServoThreeReference(depth)
  {
    var v := Interp(depth, 0.0, 1.0, 0.0, 180.0);
    if depth < 1.0 {
      assert v == 180.0 * depth;
      TruncOfNonNegative(v);
    } else {
      TruncOfInt(180);
    }
  }

  // ---- Saturation, centre and redundancy of the clip ----

  lemma ServoOneSaturates(horizontal: int)
    ensures horizontal <= -250 ==> ServoOneAngle(horizontal) == 0
    ensures horizontal >= 250 ==> ServoOneAngle(horizontal) == 180
  {
    ServoOneMatchesReference(horizontal);
  }

  /** A fingertip straight above or below the wrist centres servo 1. */
  lemma ServoOneCentre()
    ensures ServoOneAngle(0) == 90
  {
    ServoOneMatchesReference(0);
  }

  lemma ServoTwoSaturates(vertical: int)
    ensures vertical <= -300 ==> ServoTwoAngle(vertical) == 0
    ensures vertical >= 300 ==> ServoTwoAngle(vertical) == 180
  {
    ServoTwoMatchesReference(vertical);
  }

  lemma ServoTwoCentre()
    ensures ServoTwoAngle(0) == 90
  {
    ServoTwoMatchesReference(0);
  }

  lemma ServoThreeSaturates(depth: real)
    requires 0.0 <= depth
    ensures depth == 0.0 ==> ServoThreeAngle(depth) == 0
    ensures depth >= 1.0 ==> ServoThreeAngle(depth) == 180
  {
    ServoThreeMatchesReference(depth);
  }

  /** Interpolation and truncation already land in `[0, 180]`; the clips change nothing. */
  lemma ArmClipsAreRedundant(horizontal: int, vertical: int, depth: real)
    ensures 0 <= Trunc(Interp(horizontal as real, -250.0, 250.0, 0.0, 180.0)) <= 180
    ensures 0 <= Trunc(Interp(vertical as real, -300.0, 300.0, 0.0, 180.0)) <= 180
    ensures 0 <= Trunc(Interp(depth, 0.0, 1.0, 0.0, 180.0)) <= 180
  {
    InterpBounds(horizontal as real, -250.0, 250.0, 0.0, 180.0);
    InterpBounds(vertical as real, -300.0, 300.0, 0.0, 180.0);
    InterpBounds(depth, 0.0, 1.0, 0.0, 180.0);
    TruncMonotone(Interp(horizontal as real, -250.0, 250.0, 0.0, 180.0), 180.0);
    TruncMonotone(Interp(vertical as real, -300.0, 300.0, 0.0, 180.0), 180.0);
    TruncMonotone(Interp(depth, 0.0, 1.0, 0.0, 180.0), 180.0);
    TruncOfInt(180);
  }

  // ---- Monotonicity ----

  lemma ServoOneMonotone(h1: int, h2: int)
    requires h1 <= h2
    ensures ServoOneAngle(h1) <= ServoOneAngle(h2)
  {
    InterpMonotone(h1 as real, h2 as real, -250.0, 250.0, 0.0, 180.0);
    TruncMonotone(Interp(h1 as real, -250.0, 250.0, 0.0, 180.0), Interp(h2 as real, -250.0, 250.0, 0.0, 180.0));
  }

  lemma ServoTwoMonotone(v1: int, v2: int)
    requires v1 <= v2
    ensures ServoTwoAngle(v1) <= ServoTwoAngle(v2)
  {
    InterpMonotone(v1 as real, v2 as real, -300.0, 300.0, 0.0, 180.0);
    TruncMonotone(Interp(v1 as real, -300.0, 300.0, 0.0, 180.0), Interp(v2 as real, -300.0, 300.0, 0.0, 180.0));
  }

  lemma ServoThreeMonotone(d1: real, d2: real)
    requires d1 <= d2
    ensures ServoThreeAngle(d1) <= ServoThreeAngle(d2)
  {
    InterpMonotone(d1, d2, 0.0, 1.0, 0.0, 180.0);
    TruncMonotone(Interp(d1, 0.0, 1.0, 0.0, 180.0), Interp(d2, 0.0, 1.0, 0.0, 180.0));
  }

  /**
    Moving the index fingertip to the right (wrist fixed) never turns servo 1 back:
    the pixel truncation preserves the order of the columns.
   */
  lemma ServoOneFollowsIndexFingerX(hand: seq<Landmark>, moved: seq<Landmark>, width: nat)
    requires IsComplete(hand) && IsComplete(moved)
    requires moved[WRIST] == hand[WRIST]
    requires hand[INDEX_FINGER_TIP].x <= moved[INDEX_FINGER_TIP].x
    ensures ServoOneAngle(HorizontalDistance(hand, width)) <= ServoOneAngle(HorizontalDistance(moved, width))
  {
    PixelXMonotone(hand[INDEX_FINGER_TIP], moved[INDEX_FINGER_TIP], width);
    ServoOneMonotone(HorizontalDistance(hand, width), HorizontalDistance(moved, width));
  }

  /** A landmark further right never lands in an earlier pixel column. */
  lemma PixelXMonotone(l1: Landmark, l2: Landmark, width: nat)
    requires l1.x <= l2.x
    ensures PixelX(l1, width) <= PixelX(l2, width)
  {
    ScaleMonotone(l1.x, l2.x, width as real);
    TruncMonotone(l1.x * width as real, l2.x * width as real);
  }

  // ---- Pixel offsets ----

  /**
    The code truncates each pixel coordinate before subtracting, so its offsets differ
    by less than two pixels from the exact ones, `index * dimension - wrist * dimension`.
   */
  lemma PixelOffsetsNearExact(hand: seq<Landmark>, height: nat, width: nat)
    requires IsComplete(hand)
    ensures var tip, wrist := hand[INDEX_FINGER_TIP], hand[WRIST];
      -2.0 < HorizontalDistance(hand, width) as real - (tip.x * width as real - wrist.x * width as real) < 2.0
    ensures var tip, wrist := hand[INDEX_FINGER_TIP], hand[WRIST];
      -2.0 < VerticalDistance(hand, height) as real - (tip.y * height as real - wrist.y * height as real) < 2.0
  {
    var tip, wrist := hand[INDEX_FINGER_TIP], hand[WRIST];
    TruncDifferenceBound(tip.x * width as real, wrist.x * width as real);
    TruncDifferenceBound(tip.y * height as real, wrist.y * height as real);
  }

  /**
    The code's offsets are at most one pixel away from truncating the scaled difference
    of the normalised coordinates, `int((tip.x - wrist.x) * width)`.
   */
  lemma PixelOffsetsNearTruncatedDifference(hand: seq<Landmark>, height: nat, width: nat)
    requires IsComplete(hand)
    ensures var tip, wrist := hand[INDEX_FINGER_TIP], hand[WRIST];
      -1 <= HorizontalDistance(hand, width) - Trunc((tip.x - wrist.x) * width as real) <= 1
    ensures var tip, wrist := hand[INDEX_FINGER_TIP], hand[WRIST];
      -1 <= VerticalDistance(hand, height) - Trunc((tip.y - wrist.y) * height as real) <= 1
  {
    var tip, wrist := hand[INDEX_FINGER_TIP], hand[WRIST];
    var w, h := width as real, height as real;
    assert (tip.x - wrist.x) * w == tip.x * w - wrist.x * w;
    assert (tip.y - wrist.y) * h == tip.y * h - wrist.y * h;
    TruncOfDifferenceBound(tip.x * w, wrist.x * w);
    TruncOfDifferenceBound(tip.y * h, wrist.y * h);
  }

  // ---- A worked frame ----

  /**
    Wrist at (0.5, 0.5), index fingertip at (0.7, 0.5), every other joint on the wrist,
    equal depths, in a 500 x 500 frame: horizontal offset 100 gives servo 1 at 126,
    servo 2 is centred, servo 3 at rest, and the hand counts as closed.
   */
  lemma WorkedFrame()
    ensures var hand := seq(NUM_LANDMARKS, i => if i == INDEX_FINGER_TIP then Landmark(0.7, 0.5, 0.0) else Landmark(0.5, 0.5, 0.0));
      && HorizontalDistance(hand, 500) == 100
      && FrameAngles(hand, 500, 500) == [126, 90, 0, 0]
  {
    var hand := seq(NUM_LANDMARKS, i => if i == INDEX_FINGER_TIP then Landmark(0.7, 0.5, 0.0) else Landmark(0.5, 0.5, 0.0));
    assert PixelX(hand[INDEX_FINGER_TIP], 500) == 350;
    assert PixelX(hand[WRIST], 500) == 250;
    assert PixelY(hand[INDEX_FINGER_TIP], 500) == 250;
    assert PixelY(hand[WRIST], 500) == 250;
    ServoOneMatchesReference(100);
    ServoTwoMatchesReference(0);
    ServoThreeMatchesReference(0.0);
    OneLowFingertipClosesHand(hand, 0);
  }
}
