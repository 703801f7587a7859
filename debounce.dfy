/** The debouncing rule of src/components/tracking/HandTracker.tsx, stated on
    values: the bounded label history, label counts, the 80% dominance test and
    what a commit does to the committed gesture and target shape. The tracker's
    methods (module HandTracking) are proved against these functions. */
module Debounce {
  import opened Store

  /** The history keeps at most this many labels. */
  const Capacity: nat := 10
  /** A commit needs strictly more labels than this in the history. */
  const MinLength: nat := 5
  /** ...and one label holding strictly more than this share of them. */
  const Share: real := 0.8

  /** Appending a label, then dropping the oldest one if the history got too long. */
  function Window(h: seq<string>, entry: string): (r: seq<string>)
    requires |h| <= Capacity
    ensures |r| <= Capacity
    ensures |h| < Capacity ==> r == h + [entry]
    ensures |h| == Capacity ==> r == h[1..] + [entry]
  {
    var pushed := h + [entry];
    if |pushed| > Capacity then pushed[1..] else pushed
  }

  /** How often `g` occurs in `h`. */
  function Count(h: seq<string>, g: string): nat
  {
    if h == [] then 0
    else Count(h[..|h| - 1], g) + (if h[|h| - 1] == g then 1 else 0)
  }

  /** The distinct labels of `h` in order of first appearance: the order in
      which the counting dictionary acquires its keys. */
  function Firsts(h: seq<string>): seq<string>
  {
    if h == [] then []
    else if h[|h| - 1] in h[..|h| - 1] then Firsts(h[..|h| - 1])
    else Firsts(h[..|h| - 1]) + [h[|h| - 1]]
  }

  /** Pushing one label adds one to its own count and nothing to the others. */
  lemma CountPush(h: seq<string>, x: string, g: string)
    ensures Count(h + [x], g) == Count(h, g) + (if x == g then 1 else 0)
    ensures Firsts(h + [x]) == if x in h then Firsts(h) else Firsts(h) + [x]
  {
    assert (h + [x])[..|h|] == h;
  }

  lemma {:induction false} CountBound(h: seq<string>, g: string)
    ensures Count(h, g) <= |h|
    ensures Count(h, g) > 0 <==> g in h
  {
    if h != [] {
      CountBound(h[..|h| - 1], g);
      assert h == h[..|h| - 1] + [h[|h| - 1]];
    }
  }

  /** Two different labels never share more places than the history has. */
  lemma {:induction false} CountsOfTwo(h: seq<string>, a: string, b: string)
    requires a != b
    ensures Count(h, a) + Count(h, b) <= |h|
  {
    if h != [] {
      CountsOfTwo(h[..|h| - 1], a, b);
    }
  }

  lemma {:induction false} FirstsAreTheLabels(h: seq<string>)
    ensures forall g :: g in Firsts(h) <==> g in h
    ensures forall j, k :: 0 <= j < k < |Firsts(h)| ==> Firsts(h)[j] != Firsts(h)[k]
  {
    if h != [] {
      var init := h[..|h| - 1];
      FirstsAreTheLabels(init);
      assert h == init + [h[|h| - 1]];
    }
  }

  /** `g` holds more than 80% of the history. */
  predicate Over(h: seq<string>, g: string)
  {
    Count(h, g) as real > |h| as real * Share
  }

  /** The first label of `h`, from position `i` on, that holds more than 80% of `h`. */
  function OverFrom(h: seq<string>, i: nat): (r: Option<string>)
    requires i <= |h|
    decreases |h| - i
    ensures r.Some? ==> r.value in h[i..] && Over(h, r.value)
    ensures r.None? ==> forall k :: i <= k < |h| ==> !Over(h, h[k])
  {
    if i == |h| then None
    else if Over(h, h[i]) then Some(h[i])
    else OverFrom(h, i + 1)
  }

  /** The label a history commits, if any: one that holds more than 80% of a
      history longer than five. */
  function Majority(h: seq<string>): Option<string>
  {
    if |h| > MinLength then OverFrom(h, 0) else None
  }

  /** At most one label can hold more than 80% of a history. */
  lemma OverIsUnique(h: seq<string>, a: string, b: string)
    requires Over(h, a) && Over(h, b)
    ensures a == b
  {
    if a != b {
      CountsOfTwo(h, a, b);
    }
  }

  /** Majority is exactly the dominance test, in both directions. */
  lemma MajorityIff(h: seq<string>, g: string)
    ensures Majority(h) == Some(g) <==> |h| > MinLength && Over(h, g)
  {
    if |h| > MinLength && Over(h, g) {
      CountBound(h, g);
      var k :| 0 <= k < |h| && h[k] == g;
      assert Over(h, h[k]);
      var m := OverFrom(h, 0);
      assert m.Some?;
      OverIsUnique(h, m.value, g);
    }
  }

  /** The shape a committed label selects: one of six names; never `random`. */
  function SelectableShape(name: string): (r: Option<ShapeType>)
    ensures r.Some? ==> r.value != Random && ShapeName(r.value) == name
    ensures r.None? ==> name !in {"heart", "saturn", "flower", "firework", "cube", "sphere"}
  {
    if name in {"heart", "saturn", "flower", "firework", "cube", "sphere"} then ParseShape(name)
    else None
  }

  /** The committed gesture and target shape. */
  datatype Committed = Committed(gesture: Option<string>, shape: ShapeType)

  /** What committing the dominant label `d` does. */
  function Commit(d: string, c: Committed): Committed
  {
    if d == "fist" then c.(gesture := Some("fist"))
    else
      match SelectableShape(d)
      case Some(s) => Committed(Some("open"), s)
      case None => c.(gesture := Some("open"))
  }

  /** The committed pair after a frame whose push left the history `h`. */
  function Settle(h: seq<string>, c: Committed): Committed
  {
    match Majority(h)
    case None => c
    case Some(d) => Commit(d, c)
  }

  /** A fist commit grabs and keeps the shape; any other commit releases; a
      committed shape name sets that shape, any other label keeps the shape, so
      the shape never becomes `random`; without a commit nothing changes. */
  lemma SettleEffect(h: seq<string>, c: Committed)
    ensures Majority(h).None? ==> Settle(h, c) == c
    ensures Majority(h) == Some("fist") ==> Settle(h, c) == Committed(Some("fist"), c.shape)
    ensures Majority(h).Some? && Majority(h) != Some("fist") ==> Settle(h, c).gesture == Some("open")
    ensures Majority(h) == Some("open") ==> Settle(h, c).shape == c.shape
    ensures forall d :: Majority(h) == Some(d) && SelectableShape(d).None? ==>
      Settle(h, c).shape == c.shape
    ensures forall s :: s != Random && Majority(h) == Some(ShapeName(s)) ==>
      Settle(h, c) == Committed(Some("open"), s)
    ensures Settle(h, c).shape != c.shape ==>
      Settle(h, c).shape != Random && Majority(h) == Some(ShapeName(Settle(h, c).shape))
  {
  }

  /** Committing is idempotent: the same dominant label twice is the same as once. */
  lemma CommitIdempotent(d: string, c: Committed)
    ensures Commit(d, Commit(d, c)) == Commit(d, c)
  {
  }

  /** A history of a single label commits nothing. */
  lemma SingleLabelNeverCommits(h: seq<string>)
    requires |h| <= 1
    ensures Majority(h) == None
  {
  }

  function Repeat(g: string, n: nat): (r: seq<string>)
    ensures |r| == n
    ensures forall k :: 0 <= k < n ==> r[k] == g
  {
    if n == 0 then [] else Repeat(g, n - 1) + [g]
  }

  lemma {:induction false} CountUniform(h: seq<string>, g: string)
    requires forall k :: 0 <= k < |h| ==> h[k] == g
    ensures Count(h, g) == |h|
  {
    if h != [] {
      CountUniform(h[..|h| - 1], g);
    }
  }

  /** Six or more identical labels in the history commit that label. */
  lemma UniformCommits(h: seq<string>, g: string)
    requires |h| > MinLength
    requires forall k :: 0 <= k < |h| ==> h[k] == g
    ensures Majority(h) == Some(g)
  {
    CountUniform(h, g);
    MajorityIff(h, g);
  }

  /** The history after pushing each label of `labels` in turn. */
  function Feed(h: seq<string>, labels: seq<string>): (r: seq<string>)
    requires |h| <= Capacity
    ensures |r| <= Capacity
    decreases |labels|
  {
    if labels == [] then h else Feed(Window(h, labels[0]), labels[1..])
  }

  /** The last `Capacity` labels of `s`, or all of them when there are fewer. */
  function Latest(s: seq<string>): (r: seq<string>)
    ensures |r| <= Capacity
  {
    if |s| > Capacity then s[|s| - Capacity..] else s
  }

  /** Whatever was pushed, the history is the latest ten labels in push order:
      the bounded push drops exactly the oldest entries and keeps the order. */
  lemma {:induction false} FeedKeepsLatest(h: seq<string>, labels: seq<string>)
    requires |h| <= Capacity
    ensures Feed(h, labels) == Latest(h + labels)
    decreases |labels|
  {
    if labels != [] {
      var w := Window(h, labels[0]);
      var rest := labels[1..];
      FeedKeepsLatest(w, rest);
      assert h + labels == (h + [labels[0]]) + rest;
      if |h| == Capacity {
        assert w + rest == (h + labels)[1..];
      } else {
        assert w + rest == h + labels;
      }
    }
  }

  lemma {:induction false} CountAppend(a: seq<string>, b: seq<string>, g: string)
    ensures Count(a + b, g) == Count(a, g) + Count(b, g)
    decreases |b|
  {
    if b != [] {
      assert (a + b)[..|a + b| - 1] == a + b[..|b| - 1];
      CountAppend(a, b[..|b| - 1], g);
    } else {
      assert a + b == a;
    }
  }

  lemma {:induction false} CountOfRepeat(g: string, n: nat, x: string)
    ensures Count(Repeat(g, n), x) == if x == g then n else 0
  {
    if n > 0 {
      assert Repeat(g, n)[..n - 1] == Repeat(g, n - 1);
      CountOfRepeat(g, n - 1, x);
    }
  }

  /** Six fists then five open hands leave five of each in the history, which
      commits nothing; five more open hands fill it with `open`, which commits. */
  lemma ThresholdScenario()
    ensures Majority(Feed([], Repeat("fist", 6) + Repeat("open", 5))) == None
    ensures Majority(Feed([], Repeat("fist", 6) + Repeat("open", 10))) == Some("open")
  {
    var first := Repeat("fist", 6) + Repeat("open", 5);
    FeedKeepsLatest([], first);
    var h := Latest([] + first);
    assert h == Repeat("fist", 5) + Repeat("open", 5);
    forall x
      ensures Count(h, x) <= 5
    {
      CountAppend(Repeat("fist", 5), Repeat("open", 5), x);
      CountOfRepeat("fist", 5, x);
      CountOfRepeat("open", 5, x);
    }
    assert Majority(h) == None by {
      if Majority(h).Some? {
        MajorityIff(h, Majority(h).value);
      }
    }
    var second := Repeat("fist", 6) + Repeat("open", 10);
    FeedKeepsLatest([], second);
    assert Latest([] + second) == Repeat("open", 10);
    UniformCommits(Repeat("open", 10), "open");
  }
}
