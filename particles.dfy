/** One render tick of src/components/scene/ParticleField.tsx: the grab
    machine that turns fist motion into an accumulated rotation, the smoothed
    rendered rotation, and the loop that moves every particle toward its shape
    target plus a repulsion force. */
module Particles {
  import opened Store
  import opened ShapeField

  /** The sine and cosine twinkle of one particle at this tick's time. */
  datatype Noise = Noise(x: real, y: real)

  /** What the tick takes from the scene library and the clock. */
  datatype Env = Env(
    curves: Curves,
    /** a world point rotated by the Euler angles (-x, -y, 0) of a rendered rotation, in XYZ order */
    toLocal: (Vec3, Vec3) -> Vec3,
    /** the Euclidean distance between two points */
    distance: (Vec3, Vec3) -> real,
    /** each index's twinkle at the current time */
    noise: nat -> Noise)

  /** The pointer in normalised device coordinates and the viewport size. */
  datatype Pointer = Pointer(x: real, y: real, width: real, height: real)

  const FalloffRadius: real := 4.0
  const RepelStrength: real := 1.5
  const PositionBlend: real := 0.04
  const RotationBlend: real := 0.1
  const HandReachX: real := 12.0
  const HandReachY: real := 8.0
  const GrabGain: real := 2.0

  function Zero(): Vec3 { Vec3(0.0, 0.0, 0.0) }
  function Add(a: Vec3, b: Vec3): Vec3 { Vec3(a.x + b.x, a.y + b.y, a.z + b.z) }
  function Sub(a: Vec3, b: Vec3): Vec3 { Vec3(a.x - b.x, a.y - b.y, a.z - b.z) }
  function Scale(k: real, v: Vec3): Vec3 { Vec3(k * v.x, k * v.y, k * v.z) }
  function Dot(a: Vec3, b: Vec3): real { a.x * b.x + a.y * b.y + a.z * b.z }

  /** Linear interpolation from `a` toward `b` by the fraction `t`. */
  function Lerp(a: real, b: real, t: real): real
  {
    (1.0 - t) * a + t * b
  }

  // ---------------------------------------------------------------- grab

  /** The accumulated rotation target and the remembered hand position. */
  datatype Grip = Grip(rotation: Vec3, prev: Option<Vec3>)

  /** One tick of the grab machine. While a detected hand holds a fist, its
      motion since the previous tick turns the target (x by minus twice the
      vertical motion, y by twice the horizontal motion); releasing the fist
      forgets the previous position; a lost hand changes nothing. */
  function Grab(detected: bool, gesture: Option<string>, hand: Vec3, g: Grip): Grip
  {
    if !detected then g
    else if gesture == Some("fist") then
      match g.prev
      case Some(p) =>
        var dx := hand.x - p.x;
        var dy := hand.y - p.y;
        Grip(g.rotation.(y := g.rotation.y + dx * GrabGain, x := g.rotation.x + -dy * GrabGain), Some(hand))
      case None => Grip(g.rotation, Some(hand))
    else Grip(g.rotation, None)
  }

  /** The rotation target only moves while a fist is held, never about z. */
  lemma GrabMovesOnlyWhileGripping(detected: bool, gesture: Option<string>, hand: Vec3, g: Grip)
    ensures Grab(detected, gesture, hand, g).rotation.z == g.rotation.z
    ensures !(detected && gesture == Some("fist") && g.prev.Some?) ==>
      Grab(detected, gesture, hand, g).rotation == g.rotation
    ensures detected && gesture != Some("fist") ==> Grab(detected, gesture, hand, g).prev == None
    ensures detected && gesture == Some("fist") ==> Grab(detected, gesture, hand, g).prev == Some(hand)
    ensures !detected ==> Grab(detected, gesture, hand, g) == g
  {
  }

  /** The grab machine over a run of ticks in which a detected hand keeps a fist. */
  function GripRun(g: Grip, hands: seq<Vec3>): Grip
    decreases |hands|
  {
    if hands == [] then g else GripRun(Grab(true, Some("fist"), hands[0], g), hands[1..])
  }

  /** Holding a fist, the rotation target turns by twice the hand's total
      displacement from where the grip started, however the hand got there. */
  lemma {:induction false} GripTelescopes(g: Grip, start: Vec3, hands: seq<Vec3>)
    requires g.prev == Some(start) && hands != []
    ensures var last := hands[|hands| - 1];
      var r := GripRun(g, hands);
      && r.prev == Some(last)
      && r.rotation.y == g.rotation.y + GrabGain * (last.x - start.x)
      && r.rotation.x == g.rotation.x - GrabGain * (last.y - start.y)
      && r.rotation.z == g.rotation.z
    decreases |hands|
  {
    var next := Grab(true, Some("fist"), hands[0], g);
    if |hands| > 1 {
      GripTelescopes(next, hands[0], hands[1..]);
    }
  }

  /** A lost hand leaves the remembered position in place, so a fist seen again
      after the loss turns the target by the whole displacement across the gap
      in a single tick. */
  lemma GripSurvivesLoss(g: Grip, start: Vec3, lost: Vec3, back: Vec3, gesture: Option<string>)
    requires g.prev == Some(start)
    ensures Grab(false, gesture, lost, g).prev == Some(start)
    ensures var r := Grab(true, Some("fist"), back, Grab(false, gesture, lost, g));
      && r.rotation.y == g.rotation.y + GrabGain * (back.x - start.x)
      && r.rotation.x == g.rotation.x - GrabGain * (back.y - start.y)
  {
  }

  /** A hand that keeps moving right while gripping keeps turning the target the same way. */
  lemma GripMovingRightTurns(g: Grip, start: Vec3, hands: seq<Vec3>)
    requires g.prev == Some(start) && hands != []
    requires hands[|hands| - 1].x > start.x
    ensures GripRun(g, hands).rotation.y > g.rotation.y
  {
    GripTelescopes(g, start, hands);
  }

  // ------------------------------------------------------- smoothing

  /** The rendered rotation after one tick: x and y chase the target, z stays. */
  function Rendered(current: Vec3, target: Vec3): Vec3
  {
    current.(x := Lerp(current.x, target.x, RotationBlend),
             y := Lerp(current.y, target.y, RotationBlend))
  }

  /** One smoothing step leaves 90% of the gap and never passes the target. */
  lemma RenderedClosesGap(current: Vec3, target: Vec3)
    ensures var r := Rendered(current, target);
      && target.x - r.x == 0.9 * (target.x - current.x)
      && target.y - r.y == 0.9 * (target.y - current.y)
      && r.z == current.z
      && (current.x <= target.x ==> current.x <= r.x <= target.x)
      && (target.x <= current.x ==> target.x <= r.x <= current.x)
      && (current.y <= target.y ==> current.y <= r.y <= target.y)
      && (target.y <= current.y ==> target.y <= r.y <= current.y)
  {
  }

  function Pow(b: real, k: nat): real
  {
    if k == 0 then 1.0 else b * Pow(b, k - 1)
  }

  /** `k` repeated interpolation steps toward a fixed goal. */
  function Chase(a: real, goal: real, t: real, k: nat): real
    decreases k
  {
    if k == 0 then a else Chase(Lerp(a, goal, t), goal, t, k - 1)
  }

  /** After k steps toward a fixed goal, the gap is (1 - t)^k of what it was:
      the rendered rotation (t = 0.1) and a resting particle (t = 0.04) both
      close in geometrically on their targets. */
  lemma {:induction false} ChaseGap(a: real, goal: real, t: real, k: nat)
    ensures goal - Chase(a, goal, t, k) == Pow(1.0 - t, k) * (goal - a)
    decreases k
  {
    if k > 0 {
      var c := 1.0 - t;
      var a' := Lerp(a, goal, t);
      var rest := Pow(c, k - 1);
      ChaseGap(a', goal, t, k - 1);
      LerpGap(a, goal, t);
      assert Chase(a, goal, t, k) == Chase(a', goal, t, k - 1);
      assert Pow(c, k) == c * rest;
      Associate(rest, c, goal - a);
    }
  }

  lemma LerpGap(a: real, goal: real, t: real)
    ensures goal - Lerp(a, goal, t) == (1.0 - t) * (goal - a)
  {
  }

  lemma Associate(x: real, y: real, z: real)
    ensures x * (y * z) == (y * x) * z
  {
  }

  /** For a factor in (0, 1] the gap shrinks by a factor in [0, 1), never changing sign. */
  lemma {:induction false} PowInUnit(b: real, k: nat)
    requires 0.0 <= b <= 1.0
    ensures 0.0 <= Pow(b, k) <= 1.0
    ensures k > 0 && b < 1.0 ==> Pow(b, k) < 1.0
  {
    if k > 0 {
      PowInUnit(b, k - 1);
      var rest := Pow(b, k - 1);
      assert b * rest >= 0.0;
      assert b * rest <= b by { assert b * (1.0 - rest) >= 0.0; }
    }
  }

  // -------------------------------------------------------- repulsion

  /** How strongly a particle at distance `d` from the interaction point is
      pushed: full strength at the point, fading linearly to nothing at the
      falloff radius. */
  function Falloff(d: real): real
  {
    if d < FalloffRadius then (FalloffRadius - d) / FalloffRadius else 0.0
  }

  lemma FalloffShape(d: real, e: real)
    ensures Falloff(0.0) == 1.0
    ensures d >= 0.0 ==> 0.0 <= Falloff(d) <= 1.0
    ensures d >= FalloffRadius ==> Falloff(d) == 0.0
    ensures d <= e ==> Falloff(e) <= Falloff(d)
  {
  }

  /** The push on a particle whose offset to the interaction point is `delta`
      and whose distance to it is `d`. */
  function Repel(delta: Vec3, d: real): Vec3
  {
    if d < FalloffRadius then
      var force := (FalloffRadius - d) / FalloffRadius;
      Vec3(-delta.x * force * RepelStrength, -delta.y * force * RepelStrength,
           -delta.z * force * RepelStrength)
    else Zero()
  }

  /** The push is the offset scaled by -1.5 times the falloff, so for a real
      distance it points away from the interaction point. */
  lemma RepelPointsAway(delta: Vec3, d: real)
    ensures Repel(delta, d) == Scale(-RepelStrength * Falloff(d), delta)
    ensures d >= 0.0 ==> Dot(Repel(delta, d), delta) <= 0.0
  {
    var k := -RepelStrength * Falloff(d);
    var r := Repel(delta, d);
    assert r == Scale(k, delta);
    assert Dot(r, delta) == k * Dot(delta, delta);
    assert Dot(delta, delta) >= 0.0;
    if d >= 0.0 {
      FalloffShape(d, d);
      assert k <= 0.0;
    }
  }

  /** Only the factor fades with distance; the push is that factor times the
      offset, so it vanishes at the interaction point and, along a ray, grows
      out to half the falloff radius before it fades. */
  lemma RepelPeaksInside(d: real, e: real)
    requires 0.0 <= d <= e <= FalloffRadius / 2.0
    ensures Repel(Zero(), 0.0) == Zero()
    ensures Repel(Vec3(e, 0.0, 0.0), e).x <= Repel(Vec3(d, 0.0, 0.0), d).x
    ensures d < e ==> Repel(Vec3(e, 0.0, 0.0), e).x < Repel(Vec3(d, 0.0, 0.0), d).x
  {
    var u, v := e - d, FalloffRadius - e - d;
    assert Repel(Vec3(e, 0.0, 0.0), e).x == -RepelStrength / FalloffRadius * (e * (FalloffRadius - e));
    assert Repel(Vec3(d, 0.0, 0.0), d).x == -RepelStrength / FalloffRadius * (d * (FalloffRadius - d));
    assert e * (FalloffRadius - e) - d * (FalloffRadius - d) == u * v;
    assert u >= 0.0 && v >= 0.0;
    assert u * v >= 0.0 * v;
    if d < e {
      assert u > 0.0 && v > 0.0;
      assert u * v > 0.0 * v;
    }
  }

  /** Past half the falloff radius the push along a ray weakens with distance,
      and from the radius on it is gone. */
  lemma RepelFadesOutside(d: real, e: real)
    requires FalloffRadius / 2.0 <= d <= e
    ensures Repel(Vec3(d, 0.0, 0.0), d).x <= Repel(Vec3(e, 0.0, 0.0), e).x <= 0.0
    ensures e >= FalloffRadius ==> Repel(Vec3(e, 0.0, 0.0), e) == Zero()
  {
    RepelOnAxis(d);
    RepelOnAxis(e);
    var pd, pe := d * (FalloffRadius - d), e * (FalloffRadius - e);
    if d < FalloffRadius {
      NonNegProduct(d, FalloffRadius - d);
    }
    if e < FalloffRadius {
      NonNegProduct(e, FalloffRadius - e);
      NonNegProduct(e - d, e + d - FalloffRadius);
      assert pd - pe == (e - d) * (e + d - FalloffRadius);
    }
  }

  /** The push on a particle on the x-axis, at its own distance from the origin. */
  lemma RepelOnAxis(d: real)
    ensures Repel(Vec3(d, 0.0, 0.0), d).x ==
      if d < FalloffRadius then -RepelStrength / FalloffRadius * (d * (FalloffRadius - d)) else 0.0
  {
  }

  lemma NonNegProduct(a: real, b: real)
    requires a >= 0.0 && b >= 0.0
    ensures a * b >= 0.0
  {
  }



  // ------------------------------------------------------------ tick

  /** Everything one tick reads, fixed for the whole particle loop. */
  datatype Tick = Tick(
    shape: ShapeType,
    side: nat,
    gesture: Option<string>,
    interacting: bool,
    point: Vec3,
    rotation: Vec3,
    env: Env)

  /** The interaction point in world space: the hand scaled to the scene when
      one is detected, else the pointer scaled to the viewport. */
  function InteractionPoint(detected: bool, hand: Vec3, pointer: Pointer): Vec3
  {
    if detected then Vec3(hand.x * HandReachX, hand.y * HandReachY, 0.0)
    else Vec3((pointer.x * pointer.width) / 2.0, (pointer.y * pointer.height) / 2.0, 0.0)
  }

  /** The force on a particle at `p`: a push away from the interaction point,
      taken in the swarm's rotated frame, unless a fist is held. */
  function ForceOn(p: Vec3, t: Tick): Vec3
  {
    if t.interacting && t.gesture != Some("fist") then
      var local := t.env.toLocal(t.point, t.rotation);
      Repel(Sub(local, p), t.env.distance(local, p))
    else Zero()
  }

  /** A held fist turns the hand into a rotation handle: no particle is pushed. */
  lemma NoForceWhileGripping(p: Vec3, t: Tick)
    requires t.gesture == Some("fist")
    ensures ForceOn(p, t) == Zero()
  {
  }

  /** A particle outside the falloff radius is not pushed. */
  lemma NoForceFarAway(p: Vec3, t: Tick)
    requires t.env.distance(t.env.toLocal(t.point, t.rotation), p) >= FalloffRadius
    ensures ForceOn(p, t) == Zero()
  {
  }

  /** One blend step toward `goal`, with the twinkle added on x and y only. */
  function BlendToward(p: Vec3, goal: Vec3, n: Noise): Vec3
  {
    Vec3(p.x + (goal.x - p.x) * PositionBlend + n.x,
         p.y + (goal.y - p.y) * PositionBlend + n.y,
         p.z + (goal.z - p.z) * PositionBlend)
  }

  /** Without twinkle a blend step keeps 96% of the gap on every axis, moves
      by 4% of it, and is the interpolation step `Chase` repeats. */
  lemma BlendClosesGap(p: Vec3, goal: Vec3, n: Noise)
    ensures var q := BlendToward(p, goal, Noise(0.0, 0.0));
      && goal.x - q.x == 0.96 * (goal.x - p.x)
      && goal.y - q.y == 0.96 * (goal.y - p.y)
      && goal.z - q.z == 0.96 * (goal.z - p.z)
      && q.x == Lerp(p.x, goal.x, PositionBlend)
      && q.y == Lerp(p.y, goal.y, PositionBlend)
      && q.z == Lerp(p.z, goal.z, PositionBlend)
    ensures BlendToward(p, goal, n).z == BlendToward(p, goal, Noise(0.0, 0.0)).z
  {
  }

  /** The new position of particle `i` of `count`. */
  function StepParticle(p: Vec3, i: nat, count: nat, t: Tick): Vec3
    requires i < count <= t.side * t.side * t.side
  {
    var target := ShapePosition(i, count, t.shape, t.side, t.env.curves);
    BlendToward(p, Add(target, ForceOn(p, t)), t.env.noise(i))
  }

  /** Every particle after one tick: slot `k` depends on slot `k` alone. */
  function Advance(ps: seq<Vec3>, t: Tick): (r: seq<Vec3>)
    requires |ps| <= t.side * t.side * t.side
    ensures |r| == |ps|
  {
    seq(|ps|, k requires 0 <= k < |ps| => StepParticle(ps[k], k, |ps|, t))
  }

  /** With no twinkle, a particle that is not pushed closes 4% of the gap to its
      shape target each tick; on a cube that target lies in the box [-7, 7)^3. */
  lemma AdvanceApproachesTarget(ps: seq<Vec3>, t: Tick, k: nat)
    requires |ps| <= t.side * t.side * t.side && k < |ps|
    requires t.env.noise(k) == Noise(0.0, 0.0)
    requires ForceOn(ps[k], t) == Zero()
    ensures var goal := ShapePosition(k, |ps|, t.shape, t.side, t.env.curves);
      var q := Advance(ps, t)[k];
      && goal.x - q.x == 0.96 * (goal.x - ps[k].x)
      && goal.y - q.y == 0.96 * (goal.y - ps[k].y)
      && goal.z - q.z == 0.96 * (goal.z - ps[k].z)
    ensures t.shape == Cube ==> (t.side > 0 &&
      ShapePosition(k, |ps|, t.shape, t.side, t.env.curves) == CubePosition(k, t.side))
  {
    var goal := ShapePosition(k, |ps|, t.shape, t.side, t.env.curves);
    assert Add(goal, Zero()) == goal;
    BlendClosesGap(ps[k], goal, Noise(0.0, 0.0));
  }

  // ------------------------------------------------------------ field

  class ParticleField {
    const count: nat
    /** Per-slot position in the swarm's own frame; allocated once. */
    const particles: array<Vec3>
    /** The rotation target accumulated by gripping. */
    var groupRotation: Vec3
    /** The rotation the swarm is drawn with, chasing the target. */
    var meshRotation: Vec3
    /** The hand position at the previous gripping tick. */
    var prevHandPos: Option<Vec3>

    ghost predicate Valid()
      reads this
    {
      particles.Length == count
    }

    /** A swarm starting from the given positions, unrotated. */
    constructor (n: nat, start: seq<Vec3>)
      requires |start| == n
      ensures Valid() && fresh(particles) && count == n
      ensures particles[..] == start
      ensures groupRotation == Zero() && meshRotation == Zero() && prevHandPos == None
    {
      count := n;
      particles := new Vec3[n](k requires 0 <= k < n => start[k]);
      groupRotation := Zero();
      meshRotation := Zero();
      prevHandPos := None;
    }

    /** One render tick, reading the shared store. `side` is the cube grid side. */
    method Frame(store: AppState, pointer: Pointer, side: nat, env: Env)
      requires Valid() && count <= side * side * side
      modifies this, particles
      ensures Valid()
      ensures Grip(groupRotation, prevHandPos) ==
        Grab(store.isHandDetected, store.gesture, store.handPosition, old(Grip(groupRotation, prevHandPos)))
      ensures meshRotation == Rendered(old(meshRotation), groupRotation)
      ensures particles[..] == Advance(old(particles[..]),
        Tick(store.targetShape, side, store.gesture, true,
             InteractionPoint(store.isHandDetected, store.handPosition, pointer), meshRotation, env))
    {
      ghost var grip0 := Grip(groupRotation, prevHandPos);
      var hand := store.handPosition;
      var point: Vec3;
      var interacting := false;
      if store.isHandDetected {
        point := Vec3(hand.x * HandReachX, hand.y * HandReachY, 0.0);
        interacting := true;
        if store.gesture == Some("fist") {
          if prevHandPos.Some? {
            var dx := hand.x - prevHandPos.value.x;
            var dy := hand.y - prevHandPos.value.y;
            groupRotation := groupRotation.(y := groupRotation.y + dx * GrabGain);
            groupRotation := groupRotation.(x := groupRotation.x + -dy * GrabGain);
          }
          prevHandPos := Some(hand);
        } else {
          prevHandPos := None;
        }
      } else {
        point := Vec3((pointer.x * pointer.width) / 2.0, (pointer.y * pointer.height) / 2.0, 0.0);
        interacting := true;
      }
      assert Grip(groupRotation, prevHandPos) == Grab(store.isHandDetected, store.gesture, hand, grip0);
      assert point == InteractionPoint(store.isHandDetected, hand, pointer);

      meshRotation := meshRotation.(x := Lerp(meshRotation.x, groupRotation.x, RotationBlend));
      meshRotation := meshRotation.(y := Lerp(meshRotation.y, groupRotation.y, RotationBlend));

      Move(Tick(store.targetShape, side, store.gesture, interacting, point, meshRotation, env));
    }

    /** The particle loop: slot `i`, and only slot `i`, moves in iteration `i`. */
    method Move(tick: Tick)
      requires Valid() && count <= tick.side * tick.side * tick.side
      modifies particles
      ensures particles[..] == Advance(old(particles[..]), tick)
    {
      ghost var before := particles[..];
      for i := 0 to count
        invariant forall k :: 0 <= k < i ==> particles[k] == StepParticle(before[k], k, count, tick)
        invariant forall k :: i <= k < count ==> particles[k] == before[k]
      {
        var p := particles[i];
        var target := ShapePosition(i, count, tick.shape, tick.side, tick.env.curves);
        var force := Zero();
        if tick.interacting && tick.gesture != Some("fist") {
          var local := tick.env.toLocal(tick.point, tick.rotation);
          var delta := Sub(local, p);
          var dist := tick.env.distance(local, p);
          if dist < FalloffRadius {
            var f := (FalloffRadius - dist) / FalloffRadius;
            force := Vec3(-delta.x * f * RepelStrength, -delta.y * f * RepelStrength,
                          -delta.z * f * RepelStrength);
          }
        }
        assert force == ForceOn(p, tick);
        var n := tick.env.noise(i);
        particles[i] := Vec3(p.x + (target.x + force.x - p.x) * PositionBlend + n.x,
                             p.y + (target.y + force.y - p.y) * PositionBlend + n.y,
                             p.z + (target.z + force.z - p.z) * PositionBlend);
      }
    }
  }
}
