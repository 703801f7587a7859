/** The frame handler of src/components/tracking/HandTracker.tsx: it maps the
    index fingertip to a hand position, classifies the frame, pushes the label
    into the bounded history, counts the labels, finds the dominant one and
    commits it to the shared store when it dominates. A frame without a hand
    clears the history. */
module HandTracking {
  import opened Store
  import opened Gestures
  import opened Debounce

  /** One frame in which a hand was found: the landmark distances the
      classifier reads and the normalised image coordinates of the index
      fingertip (landmark 8). */
  datatype HandFrame = HandFrame(distances: HandDistances, tipX: real, tipY: real)

  /** The fingertip as a hand position, mirrored horizontally, with y pointing up. */
  function HandPosition(tipX: real, tipY: real): (p: Vec3)
    ensures p.x == 1.0 - 2.0 * tipX && p.y == 1.0 - 2.0 * tipY && p.z == 0.0
    ensures 0.0 <= tipX <= 1.0 && 0.0 <= tipY <= 1.0 ==>
      -1.0 <= p.x <= 1.0 && -1.0 <= p.y <= 1.0
  {
    var x := (tipX - 0.5) * 2.0;
    var y := -(tipY - 0.5) * 2.0;
    Vec3(-x, y, 0.0)
  }

  /** The fingertip can be read back from the hand position: no two fingertip
      positions share a hand position. */
  lemma HandPositionInverse(tipX: real, tipY: real)
    ensures (1.0 - HandPosition(tipX, tipY).x) / 2.0 == tipX
    ensures (1.0 - HandPosition(tipX, tipY).y) / 2.0 == tipY
  {
  }

  /** The counting pass: one dictionary entry per distinct label, holding how
      often it occurs, with the keys in the order they were first inserted. */
  method CountLabels(h: seq<string>) returns (counts: map<string, nat>, keys: seq<string>)
    ensures forall g :: g in counts <==> g in h
    ensures forall g :: g in counts ==> counts[g] == Count(h, g)
    ensures keys == Firsts(h)
    ensures forall g :: g in keys <==> g in counts
  {
    counts := map[];
    keys := [];
    var i := 0;
    while i < |h|
      invariant 0 <= i <= |h|
      invariant keys == Firsts(h[..i])
      invariant forall g :: g in counts <==> g in h[..i]
      invariant forall g :: g in counts ==> counts[g] == Count(h[..i], g)
    {
      var g := h[i];
      assert h[..i + 1] == h[..i] + [g];
      forall x
        ensures Count(h[..i + 1], x) == Count(h[..i], x) + (if x == g then 1 else 0)
      {
        CountPush(h[..i], g, x);
      }
      CountBound(h[..i], g);
      var c := if g in counts then counts[g] else 0;
      if g !in counts {
        keys := keys + [g];
      }
      counts := counts[g := c + 1];
      i := i + 1;
    }
    assert h[..|h|] == h;
    FirstsAreTheLabels(h);
  }

  /** The max search over the keys in insertion order, keeping the first key
      that reaches the largest count (a later key must beat it strictly). */
  method FindDominant(counts: map<string, nat>, keys: seq<string>) returns (maxCount: nat, dominant: string)
    requires forall k :: 0 <= k < |keys| ==> keys[k] in counts
    ensures forall k :: 0 <= k < |keys| ==> counts[keys[k]] <= maxCount
    ensures maxCount == 0 ==> dominant == ""
    ensures maxCount > 0 ==> dominant in counts && counts[dominant] == maxCount
    ensures maxCount > 0 ==> exists at :: (0 <= at < |keys| && keys[at] == dominant &&
                                           forall k :: 0 <= k < at ==> counts[keys[k]] < maxCount)
  {
    maxCount := 0;
    dominant := "";
    ghost var at := 0;
    var j := 0;
    while j < |keys|
      invariant 0 <= j <= |keys|
      invariant forall k :: 0 <= k < j ==> counts[keys[k]] <= maxCount
      invariant maxCount == 0 ==> dominant == ""
      invariant maxCount > 0 ==> at < j && keys[at] == dominant && counts[dominant] == maxCount
      invariant maxCount > 0 ==> forall k :: 0 <= k < at ==> counts[keys[k]] < maxCount
    {
      var g := keys[j];
      if counts[g] > maxCount {
        maxCount := counts[g];
        dominant := g;
        at := j;
      }
      j := j + 1;
    }
  }

  /** The 80% test as the handler writes it, on the counted maximum. */
  predicate Dominates(maxCount: nat, length: nat)
  {
    maxCount as real > length as real * Share && length > MinLength
  }

  /** With counts and keys produced by the two passes, the handler's test
      passes exactly when the history has a majority label, and the dominant
      key is then that label. */
  lemma DominantIsMajority(h: seq<string>, counts: map<string, nat>, keys: seq<string>,
                           maxCount: nat, dominant: string)
    requires forall g :: g in counts <==> g in h
    requires forall g :: g in counts ==> counts[g] == Count(h, g)
    requires forall g :: g in keys <==> g in counts
    requires forall k :: 0 <= k < |keys| ==> keys[k] in counts && counts[keys[k]] <= maxCount
    requires maxCount > 0 ==> dominant in counts && counts[dominant] == maxCount
    ensures Dominates(maxCount, |h|) <==> Majority(h) == Some(dominant)
    ensures !Dominates(maxCount, |h|) ==> Majority(h) == None
  {
    if Dominates(maxCount, |h|) {
      MajorityIff(h, dominant);
    } else if Majority(h).Some? {
      var g := Majority(h).value;
      MajorityIff(h, g);
      CountBound(h, g);
    }
  }

  class HandTracker {
    /** The store this tracker writes to. */
    const store: AppState
    /** The debounce buffer of recent labels, oldest first. */
    var history: seq<string>
    /** The last hand position seen, cleared when the hand is lost. */
    var prevHandPos: Option<Vec3>

    ghost predicate Valid()
      reads this
    {
      |history| <= Capacity
    }

    ghost function Held(): Committed
      reads this, store
    {
      Committed(store.gesture, store.targetShape)
    }

    constructor (s: AppState)
      ensures Valid() && store == s
      ensures history == [] && prevHandPos == None
    {
      store := s;
      history := [];
      prevHandPos := None;
    }

    /** Classify one frame, push its label, and commit when one label dominates. */
    method DetectLogic(d: HandDistances)
      requires Valid()
      modifies this`history, store
      ensures Valid()
      ensures history == Window(old(history), Classify(Read(d)))
      ensures Held() == Settle(history, old(Held()))
      ensures store.handPosition == old(store.handPosition)
      ensures store.isHandDetected == old(store.isHandDetected)
      ensures store.rotation == old(store.rotation)
    {
      var detection := Detect(Read(d));
      history := history + [Label(detection)];
      if |history| > Capacity {
        history := history[1..];
      }
      var counts, keys := CountLabels(history);
      var maxCount, dominant := FindDominant(counts, keys);
      DominantIsMajority(history, counts, keys, maxCount, dominant);
      if maxCount as real > |history| as real * Share && |history| > MinLength {
        if dominant == "fist" {
          store.SetGesture(Some("fist"));
        } else {
          store.SetGesture(Some("open"));
          var shape := SelectableShape(dominant);
          if shape.Some? {
            store.SetTargetShape(shape.value);
          }
        }
      }
    }

    /** One video frame: a found hand updates the store and the history, a
        lost hand clears the history and leaves the committed pair alone. */
    method PredictFrame(frame: Option<HandFrame>)
      requires Valid()
      modifies this, store
      ensures Valid()
      ensures store.isHandDetected == frame.Some?
      ensures store.rotation == old(store.rotation)
      ensures frame.None? ==>
        && history == []
        && prevHandPos == None
        && Held() == old(Held())
        && store.handPosition == old(store.handPosition)
      ensures frame.Some? ==>
        && history == Window(old(history), Classify(Read(frame.value.distances)))
        && prevHandPos == Some(HandPosition(frame.value.tipX, frame.value.tipY))
        && store.handPosition == HandPosition(frame.value.tipX, frame.value.tipY)
        && Held() == Settle(history, old(Held()))
    {
      match frame
      case Some(hand) =>
        store.SetHandDetected(true);
        var pos := HandPosition(hand.tipX, hand.tipY);
        store.SetHandPosition(pos);
        DetectLogic(hand.distances);
        prevHandPos := Some(pos);
      case None =>
        store.SetHandDetected(false);
        prevHandPos := None;
        history := [];
    }
  }

  /** After a lost hand, the next found hand cannot commit on its own: the
      history then holds a single label. */
  lemma NoCommitRightAfterLoss(entry: string, c: Committed)
    ensures Window([], entry) == [entry]
    ensures Settle(Window([], entry), c) == c
  {
    SingleLabelNeverCommits(Window([], entry));
  }
}
