/** Numbers as the scene uses them: random draws, 3D vectors, the linear
    interpolation of three.js's Vector3.lerp, and the transcendental functions
    of JavaScript's Math, which the model leaves abstract. */
module Numerics {

  /** One draw of Math.random(): a real in [0, 1). */
  type Unit = r: real | 0.0 <= r < 1.0

  /** Math.PI, as JavaScript rounds it. */
  const Pi: real := 3.141592653589793

  /** THREE.Vector3. */
  datatype Vec3 = Vec3(x: real, y: real, z: real)

  /** The vector from `a` to `b`. */
  function Offset(a: Vec3, b: Vec3): Vec3 {
    Vec3(b.x - a.x, b.y - a.y, b.z - a.z)
  }

  function Scale(k: real, v: Vec3): Vec3 {
    Vec3(k * v.x, k * v.y, k * v.z)
  }

  /** The dot product; Dot(v, v) is the squared length of v. */
  function Dot(a: Vec3, b: Vec3): real {
    a.x * b.x + a.y * b.y + a.z * b.z
  }

  function Abs(a: real): real {
    if a < 0.0 then -a else a
  }

  /** `a` is no farther from `target` than `b` is, along every axis. */
  predicate NoFarther(a: Vec3, b: Vec3, target: Vec3) {
    && Abs(target.x - a.x) <= Abs(target.x - b.x)
    && Abs(target.y - a.y) <= Abs(target.y - b.y)
    && Abs(target.z - a.z) <= Abs(target.z - b.z)
  }

  /** `a` is strictly closer to `target` than `b` along some axis. */
  predicate CloserSomewhere(a: Vec3, b: Vec3, target: Vec3) {
    || Abs(target.x - a.x) < Abs(target.x - b.x)
    || Abs(target.y - a.y) < Abs(target.y - b.y)
    || Abs(target.z - a.z) < Abs(target.z - b.z)
  }

  /** Math.cos, Math.sin, Math.acos, Math.sqrt and Math.pow, left abstract:
      each proof assumes only the facts it names among TrigBounded,
      Pythagorean and PowInUnit, read over the reals rather than doubles. */
  datatype Maths = Maths(
    cos: real -> real,
    sin: real -> real,
    acos: real -> real,
    sqrt: real -> real,
    pow: (real, real) -> real)

  /** Sine and cosine lie in [-1, 1]. */
  ghost predicate TrigBounded(m: Maths) {
    && (forall a :: -1.0 <= m.cos(a) <= 1.0)
    && (forall a :: -1.0 <= m.sin(a) <= 1.0)
  }

  /** sin^2 + cos^2 = 1. */
  ghost predicate Pythagorean(m: Maths) {
    forall a :: m.sin(a) * m.sin(a) + m.cos(a) * m.cos(a) == 1.0
  }

  /** t^0.8 stays in [0, 1] for t in [0, 1]. */
  ghost predicate PowInUnit(m: Maths) {
    forall t :: 0.0 <= t <= 1.0 ==> 0.0 <= m.pow(t, 0.8) <= 1.0
  }

  /** The utility randomRange(min, max) = Math.random() * (max - min) + min:
      for a non-empty interval the value lies in [min, max). */
  function RandomRange(r: Unit, min: real, max: real): (v: real)
    ensures min < max ==> min <= v < max
  {
    var w := max - min;
    assert min < max ==> 0.0 <= r * w < w by {
      if min < max { ProductBelow(r, w); }
    }
    r * w + min
  }

  /** A fraction in [0, 1) of a positive width is in [0, width). */
  lemma ProductBelow(r: real, w: real)
    requires 0.0 <= r < 1.0 && 0.0 < w
    ensures 0.0 <= r * w < w
  {
    assert (1.0 - r) * w > 0.0;
  }

  /** Vector3.lerp(target, alpha): every coordinate moves the fraction
      `alpha` of the way to the target. The fraction is not clamped. What is
      left of the way afterwards is the old remaining way scaled by 1 - alpha. */
  function Lerp(v: Vec3, target: Vec3, alpha: real): (r: Vec3)
    ensures Offset(r, target) == Scale(1.0 - alpha, Offset(v, target))
  {
    Vec3(v.x + (target.x - v.x) * alpha,
         v.y + (target.y - v.y) * alpha,
         v.z + (target.z - v.z) * alpha)
  }

  /** With alpha in [0, 1] one lerp step never moves a point farther from
      its target along any axis, and with alpha in (0, 1] it strictly closes
      the gap on at least one axis unless the point is already there. */
  lemma LerpApproaches(v: Vec3, target: Vec3, alpha: real)
    requires 0.0 <= alpha <= 1.0
    ensures NoFarther(Lerp(v, target, alpha), v, target)
    ensures 0.0 < alpha && v != target ==> CloserSomewhere(Lerp(v, target, alpha), v, target)
  {
    var d := Offset(v, target);
    var k := 1.0 - alpha;
    assert Offset(Lerp(v, target, alpha), target) == Scale(k, d);
    ShrinkAbs(k, d.x);
    ShrinkAbs(k, d.y);
    ShrinkAbs(k, d.z);
  }

  /** Being no farther on every axis means being no farther in Euclidean
      distance: the squared distance to the target does not grow. */
  lemma NoFartherInDistance(a: Vec3, b: Vec3, target: Vec3)
    requires NoFarther(a, b, target)
    ensures Dot(Offset(a, target), Offset(a, target)) <= Dot(Offset(b, target), Offset(b, target))
  {
    SquareMonotone(target.x - a.x, target.x - b.x);
    SquareMonotone(target.y - a.y, target.y - b.y);
    SquareMonotone(target.z - a.z, target.z - b.z);
  }

  /** A smaller magnitude has a smaller square. */
  lemma SquareMonotone(a: real, b: real)
    requires Abs(a) <= Abs(b)
    ensures a * a <= b * b
  {
    AbsProduct(a, a);
    AbsProduct(b, b);
    NonNegativeProduct(Abs(b) - Abs(a), Abs(b) + Abs(a));
    assert (Abs(b) - Abs(a)) * (Abs(b) + Abs(a)) == Abs(b) * Abs(b) - Abs(a) * Abs(a);
  }

  /** Scaling by a fraction k in [0, 1] does not enlarge a magnitude, and
      shrinks a non-zero one when k < 1. */
  lemma ShrinkAbs(k: real, a: real)
    requires 0.0 <= k <= 1.0
    ensures Abs(k * a) <= Abs(a)
    ensures k < 1.0 && a != 0.0 ==> Abs(k * a) < Abs(a)
  {
    var m := Abs(a);
    AbsScale(k, a);
    NonNegativeProduct(1.0 - k, m);
    assert (1.0 - k) * m == m - k * m;
    if k < 1.0 && a != 0.0 {
      PositiveProduct(1.0 - k, m);
    }
  }

  lemma AbsScale(k: real, a: real)
    requires 0.0 <= k
    ensures Abs(k * a) == k * Abs(a)
  {
    if a < 0.0 {
      NonNegativeProduct(k, -a);
      assert k * a == -(k * (-a));
    } else {
      NonNegativeProduct(k, a);
    }
  }

  /** A product of bounded magnitudes is bounded by the product of the bounds. */
  lemma ProductBound(a: real, b: real, bound_a: real, bound_b: real)
    requires Abs(a) <= bound_a && Abs(b) <= bound_b
    ensures Abs(a * b) <= bound_a * bound_b
  {
    AbsProduct(a, b);
    NonNegativeProduct(bound_a - Abs(a), Abs(b));
    assert (bound_a - Abs(a)) * Abs(b) == bound_a * Abs(b) - Abs(a) * Abs(b);
    NonNegativeProduct(bound_a, bound_b - Abs(b));
    assert bound_a * (bound_b - Abs(b)) == bound_a * bound_b - bound_a * Abs(b);
  }

  lemma AbsProduct(a: real, b: real)
    ensures Abs(a * b) == Abs(a) * Abs(b)
  {
    if a < 0.0 {
      assert a * b == -((-a) * b);
      AbsScale(-a, b);
    } else {
      AbsScale(a, b);
    }
  }

  lemma NonNegativeProduct(a: real, b: real)
    requires 0.0 <= a && 0.0 <= b
    ensures 0.0 <= a * b
  {
  }

  lemma PositiveProduct(a: real, b: real)
    requires 0.0 < a && 0.0 < b
    ensures 0.0 < a * b
  {
  }

  lemma ScaleTwice(p: real, k: real, d: Vec3)
    ensures Scale(p, Scale(k, d)) == Scale(k * p, d)
  {
    assert p * (k * d.x) == (k * p) * d.x;
    assert p * (k * d.y) == (k * p) * d.y;
    assert p * (k * d.z) == (k * p) * d.z;
  }

  /** k to the n-th power. */
  function Power(k: real, n: nat): real {
    if n == 0 then 1.0 else k * Power(k, n - 1)
  }

  /** `n` lerp steps toward a fixed target with the same fraction each time. */
  function LerpSteps(v: Vec3, target: Vec3, alpha: real, n: nat): Vec3
    decreases n
  {
    if n == 0 then v else LerpSteps(Lerp(v, target, alpha), target, alpha, n - 1)
  }

  /** Holding the target fixed, the remaining way decays geometrically: after
      n steps it is (1 - alpha)^n times the initial one, so for alpha in
      (0, 1] the point approaches the target without ever jumping. */
  lemma {:induction false} LerpStepsDecay(v: Vec3, target: Vec3, alpha: real, n: nat)
    ensures Offset(LerpSteps(v, target, alpha, n), target)
            == Scale(Power(1.0 - alpha, n), Offset(v, target))
    decreases n
  {
    if n > 0 {
      var w := Lerp(v, target, alpha);
      var k := 1.0 - alpha;
      var d := Offset(v, target);
      var p := Power(k, n - 1);
      calc {
        Offset(LerpSteps(v, target, alpha, n), target);
        Offset(LerpSteps(w, target, alpha, n - 1), target);
        { LerpStepsDecay(w, target, alpha, n - 1); }
        Scale(p, Offset(w, target));
        Scale(p, Scale(k, d));
        { ScaleTwice(p, k, d); }
        Scale(k * p, d);
        { assert Power(k, n) == k * p; }
        Scale(Power(k, n), d);
      }
    }
  }
}
