/** The per-frame gesture classifier of src/components/tracking/HandTracker.tsx:
    finger extension and pinch readings go through a fixed first-match priority
    chain that yields a gesture name and, for most gestures, a shape name. */
module Gestures {

  /** Distances in normalised image space measured from one hand's landmarks:
      each digit's tip and middle joint to the wrist, and the thumb tip to the
      index and middle tips. */
  datatype HandDistances = HandDistances(
    thumbTip: real, thumbIp: real,
    indexTip: real, indexPip: real,
    middleTip: real, middlePip: real,
    ringTip: real, ringPip: real,
    pinkyTip: real, pinkyPip: real,
    thumbToIndex: real, thumbToMiddle: real)

  /** The seven booleans the priority chain reads. */
  datatype FingerState = FingerState(
    thumb: bool, index: bool, middle: bool, ring: bool, pinky: bool,
    pinchIndex: bool, pinchMiddle: bool)

  /** What the chain detects: a gesture name and a shape name, "" when none. */
  datatype Detection = Detection(gesture: string, shape: string)

  const ExtensionRatio: real := 1.15
  const PinchThreshold: real := 0.05

  /** A digit is extended when its tip is clearly further from the wrist than its middle joint. */
  predicate Extended(dTip: real, dJoint: real)
  {
    dTip > dJoint * ExtensionRatio
  }

  predicate Pinched(d: real)
  {
    d < PinchThreshold
  }

  function Read(d: HandDistances): FingerState
  {
    FingerState(
      Extended(d.thumbTip, d.thumbIp),
      Extended(d.indexTip, d.indexPip),
      Extended(d.middleTip, d.middlePip),
      Extended(d.ringTip, d.ringPip),
      Extended(d.pinkyTip, d.pinkyPip),
      Pinched(d.thumbToIndex),
      Pinched(d.thumbToMiddle))
  }

  /** Extension is a ratio test, so it does not depend on how large the hand appears. */
  lemma ExtendedIsScaleFree(dTip: real, dJoint: real, k: real)
    requires k > 0.0
    ensures Extended(k * dTip, k * dJoint) <==> Extended(dTip, dJoint)
  {
    assert k * dTip - k * dJoint * ExtensionRatio == k * (dTip - dJoint * ExtensionRatio);
  }

  function B2N(b: bool): nat { if b then 1 else 0 }

  /** How many of the five digits are extended, the thumb included. */
  function ExtendedCount(f: FingerState): (n: nat)
    ensures n <= 5
    ensures n == 0 <==> !f.thumb && !f.index && !f.middle && !f.ring && !f.pinky
    ensures n == B2N(f.thumb) + B2N(f.index) + B2N(f.middle) + B2N(f.ring) + B2N(f.pinky)
  {
    var fingers := [f.index, f.middle, f.ring, f.pinky];
    assert fingers[1..] == [f.middle, f.ring, f.pinky];
    assert fingers[1..][1..] == [f.ring, f.pinky];
    assert fingers[1..][1..][1..] == [f.pinky];
    assert |Filter([f.pinky])| == B2N(f.pinky);
    assert |Filter([f.ring, f.pinky])| == B2N(f.ring) + B2N(f.pinky);
    assert |Filter([f.middle, f.ring, f.pinky])| == B2N(f.middle) + B2N(f.ring) + B2N(f.pinky);
    |Filter(fingers)| + B2N(f.thumb)
  }

  /** The extended flags among the four fingers, kept as in a filter on truthiness. */
  function Filter(bs: seq<bool>): (r: seq<bool>)
    ensures |r| <= |bs|
    ensures |r| == 0 <==> true !in bs
  {
    if bs == [] then [] else (if bs[0] then [true] else []) + Filter(bs[1..])
  }

  /** The priority chain: the first rule that matches decides. */
  function Detect(f: FingerState): Detection
  {
    var n := ExtendedCount(f);
    if f.pinchIndex then Detection("pinch", "heart")
    else if f.pinchMiddle then Detection("pinch", "saturn")
    else if n == 0 || (n == 1 && f.thumb) then Detection("fist", "")
    else if f.index && f.middle && !f.ring && !f.pinky then Detection("victory", "flower")
    else if f.index && !f.middle && !f.ring && !f.pinky then Detection("pointer", "firework")
    else if f.index && f.middle && f.ring && !f.pinky then Detection("three", "cube")
    else if n >= 4 then Detection("open", "sphere")
    else Detection("open", "")
  }

  /** The label pushed into the history: the shape when there is one, else the gesture. */
  function Label(d: Detection): string
  {
    if d.shape != "" then d.shape else d.gesture
  }

  function Classify(f: FingerState): string
  {
    Label(Detect(f))
  }

  /** The eight labels the classifier can produce. */
  const Labels: set<string> :=
    {"heart", "saturn", "fist", "flower", "firework", "cube", "sphere", "open"}

  /** The fist condition, stated without the count: no digit is extended, or only the thumb. */
  predicate Closed(f: FingerState)
  {
    !f.index && !f.middle && !f.ring && !f.pinky
  }

  /** Every label is one of eight names; in particular `random` is never produced. */
  lemma ClassifyInLabels(f: FingerState)
    ensures Classify(f) in Labels
    ensures Classify(f) != "random"
  {
  }

  /** A thumb-index pinch yields `heart` whatever the fingers do; failing that a
      thumb-middle pinch yields `saturn`. */
  lemma PinchesComeFirst(f: FingerState)
    ensures f.pinchIndex ==> Classify(f) == "heart"
    ensures !f.pinchIndex && f.pinchMiddle ==> Classify(f) == "saturn"
    ensures Classify(f) == "heart" ==> f.pinchIndex
    ensures Classify(f) == "saturn" ==> !f.pinchIndex && f.pinchMiddle
  {
  }

  /** Without a pinch, the label is `fist` exactly when the four fingers are all
      curled, whatever the thumb does. */
  lemma FistIffClosed(f: FingerState)
    requires !f.pinchIndex && !f.pinchMiddle
    ensures Classify(f) == "fist" <==> Closed(f)
  {
    var fingers := [f.index, f.middle, f.ring, f.pinky];
    if Closed(f) {
      assert forall k :: 0 <= k < 4 ==> !fingers[k];
      assert |Filter(fingers)| == 0;
    } else {
      assert fingers[0] || fingers[1] || fingers[2] || fingers[3];
      assert |Filter(fingers)| >= 1;
      if f.thumb {
        assert ExtendedCount(f) >= 2;
      }
    }
  }

  /** Without a pinch and with some finger up, the next three rules read only the
      four fingers, never the thumb. */
  lemma FingerRules(f: FingerState)
    requires !f.pinchIndex && !f.pinchMiddle && !Closed(f)
    ensures f.index && f.middle && !f.ring && !f.pinky ==> Classify(f) == "flower"
    ensures f.index && !f.middle && !f.ring && !f.pinky ==> Classify(f) == "firework"
    ensures f.index && f.middle && f.ring && !f.pinky ==> Classify(f) == "cube"
  {
    FistIffClosed(f);
  }

  /** The last two rules: four or more extended digits (thumb counted) give
      `sphere`, anything else left over gives `open`. */
  lemma SphereOrOpen(f: FingerState)
    requires !f.pinchIndex && !f.pinchMiddle && !Closed(f)
    requires !(f.index && !f.ring && !f.pinky)
    requires !(f.index && f.middle && f.ring && !f.pinky)
    ensures Classify(f) == (if ExtendedCount(f) >= 4 then "sphere" else "open")
  {
    FistIffClosed(f);
  }
}
