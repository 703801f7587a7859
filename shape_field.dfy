/** The target-position dispatch of src/components/scene/ParticleField.tsx
    (getShapePosition): the cube is an exact integer grid; the sphere, heart,
    flower, saturn, firework and default cloud formulas are trigonometric and
    enter as given functions of the particle index and count. */
module ShapeField {
  import opened Store

  /** The trigonometric shape formulas, one per shape, as functions of
      (index, count); the default cloud depends on the index alone. */
  datatype Curves = Curves(
    sphere: (nat, nat) -> Vec3,
    heart: (nat, nat) -> Vec3,
    flower: (nat, nat) -> Vec3,
    saturn: (nat, nat) -> Vec3,
    firework: (nat, nat) -> Vec3,
    cloud: nat -> Vec3)

  /** Half the side length of the cube, in scene units. */
  const HalfExtent: real := 7.0

  /** Grid coordinates of one particle in the cube. */
  datatype Cell = Cell(ix: nat, iy: nat, iz: nat)

  /** The index split by the grid side: x varies fastest, then y, then z. */
  function CubeCell(i: nat, side: nat): Cell
    requires side > 0
  {
    Cell(i % side, (i / side) % side, i / (side * side))
  }

  /** The distance between neighbouring grid points: the grid spans 14 units. */
  function Spacing(side: nat): real
    requires side > 0
  {
    HalfExtent / side as real * 2.0
  }

  function GridCoordinate(k: nat, side: nat): real
    requires side > 0
  {
    k as real * Spacing(side) - HalfExtent
  }

  function CubePosition(i: nat, side: nat): Vec3
    requires side > 0
  {
    var c := CubeCell(i, side);
    Vec3(GridCoordinate(c.ix, side), GridCoordinate(c.iy, side), GridCoordinate(c.iz, side))
  }

  /** The target position of particle `i` of `count` for `shape`; `side` is
      the cube's grid side, large enough that the grid holds every particle. */
  function ShapePosition(i: nat, count: nat, shape: ShapeType, side: nat, curves: Curves): Vec3
    requires i < count <= side * side * side
  {
    if shape == Sphere then curves.sphere(i, count)
    else if shape == Cube then CubePosition(i, side)
    else if shape == Heart then curves.heart(i, count)
    else if shape == Flower then curves.flower(i, count)
    else if shape == Saturn then curves.saturn(i, count)
    else if shape == Firework then curves.firework(i, count)
    else curves.cloud(i)
  }

  /** Euclidean division has a unique quotient. */
  lemma DivUnique(a: nat, d: nat, q: nat, r: nat)
    requires d > 0 && a == d * q + r && r < d
    ensures a / d == q && a % d == r
  {
    MulStep(d, q, a / d);
    MulStep(d, a / d, q);
  }

  /** Multiplying by a natural number keeps a gap of at least one step. */
  lemma MulStep(m: nat, a: int, b: int)
    ensures a + 1 <= b ==> m * a + m <= m * b
  {
    if a + 1 <= b {
      var k := b - a;
      MulAtLeastOnce(m, k);
      assert m * b == m * a + m * k;
    }
  }

  lemma {:induction false} MulAtLeastOnce(m: nat, k: int)
    requires k >= 1
    ensures m * k >= m
  {
    if k > 1 {
      MulAtLeastOnce(m, k - 1);
      assert m * k == m * (k - 1) + m;
    }
  }

  /** The grid coordinates lie in [0, side) and, for an index the grid holds,
      they give the index back. */
  lemma CubeCellDecomposes(i: nat, side: nat)
    requires side > 0
    ensures CubeCell(i, side).ix < side && CubeCell(i, side).iy < side
    ensures var c := CubeCell(i, side);
      i < side * side * side ==> c.iz < side && i == c.ix + side * c.iy + side * side * c.iz
  {
    var n := side;
    var q, r := i / n, i % n;
    var q2, r2 := q / n, q % n;
    var low := n * r2 + r;
    Regroup(i, n, q, r, q2, r2);
    assert low < n * n by { LowDigits(n, r2, r); }
    DivUnique(i, n * n, q2, low);
    if i < n * n * n {
      TopDigitBound(i, n, q2, low);
    }
  }

  lemma Regroup(i: nat, n: nat, q: nat, r: nat, q2: nat, r2: nat)
    requires i == n * q + r && q == n * q2 + r2
    ensures i == n * n * q2 + (n * r2 + r)
  {
    calc {
      i;
      n * q + r;
      n * (n * q2 + r2) + r;
      { assert n * (n * q2 + r2) == n * n * q2 + n * r2; }
      n * n * q2 + (n * r2 + r);
    }
  }

  lemma LowDigits(n: nat, r2: nat, r: nat)
    requires r2 < n && r < n
    ensures n * r2 + r < n * n
  {
    MulStep(n, r2, n);
  }

  lemma TopDigitBound(i: nat, n: nat, q2: nat, low: nat)
    requires n > 0 && i == n * n * q2 + low && i < n * n * n
    ensures q2 < n
  {
    MulStep(n * n, n - 1, q2);
  }

  /** Every grid coordinate k * spacing - 7 with 0 <= k < side lies in [-7, 7). */
  lemma GridCoordinateInRange(k: nat, side: nat)
    requires side > 0 && k < side
    ensures -HalfExtent <= GridCoordinate(k, side) < HalfExtent
  {
    var s := Spacing(side);
    assert s * side as real == 14.0;
    assert s > 0.0;
    assert k as real * s <= (side - 1) as real * s;
  }

  /** Every particle the grid holds has its cube target inside the box [-7, 7)^3. */
  lemma CubeInsideBox(i: nat, side: nat)
    requires side > 0 && i < side * side * side
    ensures var p := CubePosition(i, side);
      && -HalfExtent <= p.x < HalfExtent
      && -HalfExtent <= p.y < HalfExtent
      && -HalfExtent <= p.z < HalfExtent
  {
    CubeCellDecomposes(i, side);
    var c := CubeCell(i, side);
    GridCoordinateInRange(c.ix, side);
    GridCoordinateInRange(c.iy, side);
    GridCoordinateInRange(c.iz, side);
  }

  /** Distinct particles the grid holds get distinct cube targets. */
  lemma CubeTargetsDistinct(i: nat, j: nat, side: nat)
    requires side > 0 && i < side * side * side && j < side * side * side && i != j
    ensures CubePosition(i, side) != CubePosition(j, side)
  {
    CubeCellDecomposes(i, side);
    CubeCellDecomposes(j, side);
    var ci, cj := CubeCell(i, side), CubeCell(j, side);
    var s := Spacing(side);
    assert s > 0.0;
    GridStepInjective(ci.ix, cj.ix, side);
    GridStepInjective(ci.iy, cj.iy, side);
    GridStepInjective(ci.iz, cj.iz, side);
  }

  lemma GridStepInjective(a: nat, b: nat, side: nat)
    requires side > 0
    ensures GridCoordinate(a, side) == GridCoordinate(b, side) ==> a == b
  {
    assert Spacing(side) > 0.0;
  }

  /** The sphere, heart, flower, saturn and firework names are checked in turn;
      every other shape, `random` among them, gets the default cloud. */
  lemma DefaultFallThrough(i: nat, count: nat, shape: ShapeType, side: nat, curves: Curves)
    requires i < count <= side * side * side
    requires shape !in {Sphere, Cube, Heart, Flower, Saturn, Firework}
    ensures shape == Random
    ensures ShapePosition(i, count, shape, side, curves) == curves.cloud(i)
  {
  }
}
