/**
  Hand landmarks as the pose source reports them: 21 points, each with x and y
  normalised to the frame and a relative depth z, addressed by fixed joint indices.
  The open-hand heuristic that drives the gripper servo lives here too.
 */
module Hand {

  /** One tracked point of the hand. */
  datatype Landmark = Landmark(x: real, y: real, z: real)

  /** Number of landmarks in one detected hand. */
  const NUM_LANDMARKS: nat := 21

  // Joint indices used by the mapper (the pose source's fixed numbering).
  const WRIST: nat := 0
  const THUMB_TIP: nat := 4
  const INDEX_FINGER_TIP: nat := 8
  const MIDDLE_FINGER_TIP: nat := 12
  const RING_FINGER_TIP: nat := 16
  const PINKY_TIP: nat := 20

  /** The five fingertips, in the order the open-hand test lists them. */
  const FINGERTIPS: seq<nat> := [THUMB_TIP, INDEX_FINGER_TIP, MIDDLE_FINGER_TIP, RING_FINGER_TIP, PINKY_TIP]

  /** A complete detection: the pose source always reports all 21 points. */
  predicate IsComplete(hand: seq<Landmark>) {
    |hand| == NUM_LANDMARKS
  }

  /** The y coordinates of the five fingertips, in `FINGERTIPS` order. */
  function FingertipYs(hand: seq<Landmark>): (ys: seq<real>)
    requires IsComplete(hand)
    ensures |ys| == |FINGERTIPS|
    ensures forall k :: 0 <= k < |FINGERTIPS| ==> ys[k] == hand[FINGERTIPS[k]].y
  {
    [hand[THUMB_TIP].y, hand[INDEX_FINGER_TIP].y, hand[MIDDLE_FINGER_TIP].y,
     hand[RING_FINGER_TIP].y, hand[PINKY_TIP].y]
  }

  /** `all(y < bound for y in ys)`, evaluated front to back. */
  function AllBelow(ys: seq<real>, bound: real): bool
  {
    |ys| == 0 || (ys[0] < bound && AllBelow(ys[1..], bound))
  }

  /** `AllBelow` holds exactly when every element is strictly below the bound. */
  lemma {:induction false} AllBelowIff(ys: seq<real>, bound: real)
    ensures AllBelow(ys, bound) <==> forall i :: 0 <= i < |ys| ==> ys[i] < bound
  {
    if |ys| > 0 {
      AllBelowIff(ys[1..], bound);
      assert forall i :: 1 <= i < |ys| ==> ys[i] == ys[1..][i - 1];
    }
  }

  /**
    The hand counts as open when every fingertip lies strictly above the wrist in the
    image, that is, has a smaller y.
   */
  function IsHandOpen(hand: seq<Landmark>): bool
    requires IsComplete(hand)
  {
    AllBelow(FingertipYs(hand), hand[WRIST].y)
  }

  /** The hand is open iff each of the five fingertips has y strictly below the wrist's y. */
  lemma IsHandOpenIff(hand: seq<Landmark>)
    requires IsComplete(hand)
    ensures IsHandOpen(hand) <==>
      && hand[THUMB_TIP].y < hand[WRIST].y
      && hand[INDEX_FINGER_TIP].y < hand[WRIST].y
      && hand[MIDDLE_FINGER_TIP].y < hand[WRIST].y
      && hand[RING_FINGER_TIP].y < hand[WRIST].y
      && hand[PINKY_TIP].y < hand[WRIST].y
  {
    var ys := FingertipYs(hand);
    AllBelowIff(ys, hand[WRIST].y);
    assert ys[0] == hand[THUMB_TIP].y && ys[1] == hand[INDEX_FINGER_TIP].y;
    assert ys[2] == hand[MIDDLE_FINGER_TIP].y && ys[3] == hand[RING_FINGER_TIP].y;
    assert ys[4] == hand[PINKY_TIP].y;
  }

  /** A single fingertip level with or below the wrist makes the hand closed. */
  lemma OneLowFingertipClosesHand(hand: seq<Landmark>, k: nat)
    requires IsComplete(hand) && k < |FINGERTIPS|
    requires hand[FINGERTIPS[k]].y >= hand[WRIST].y
    ensures !IsHandOpen(hand)
  {
    AllBelowIff(FingertipYs(hand), hand[WRIST].y);
    assert FingertipYs(hand)[k] >= hand[WRIST].y;
  }

  /**
    Only y coordinates of the wrist and the fingertips matter: two hands that agree on
    those get the same verdict, whatever their x and z coordinates and other joints.
   */
  lemma IsHandOpenDependsOnlyOnY(h1: seq<Landmark>, h2: seq<Landmark>)
    requires IsComplete(h1) && IsComplete(h2)
    requires h1[WRIST].y == h2[WRIST].y
    requires forall k :: 0 <= k < |FINGERTIPS| ==> h1[FINGERTIPS[k]].y == h2[FINGERTIPS[k]].y
    ensures IsHandOpen(h1) == IsHandOpen(h2)
  {
    assert FingertipYs(h1) == FingertipYs(h2);
  }
}
