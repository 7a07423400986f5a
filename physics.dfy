/** Vectors, bodies and the pairwise gravity law of physics.go, over exact reals. */
module Physics {

  /** A 2-D vector: a position, velocity, acceleration or force (Go's OrderedPair). */
  datatype Vec = Vec(x: real, y: real)

  const Zero: Vec := Vec(0.0, 0.0)

  /** A point mass. Colour and radius, used only for drawing, are not modelled. */
  datatype Star = Star(position: Vec, velocity: Vec, acceleration: Vec, mass: real)

  /** One snapshot of the simulation: the stars and the side of the bounding square. */
  datatype Universe = Universe(stars: seq<Star>, width: real)

  /**
   * The two things the Go code takes from outside the shown files: the gravitational
   * constant G and math.Sqrt. A law is valid when G is positive and sqrt is a square root.
   */
  datatype Gravity = Gravity(G: real, sqrt: real -> real)

  /** sqrt is a square root: on non-negative arguments it is non-negative, squares back, and is zero only at zero. */
  ghost predicate IsSqrt(sqrt: real -> real)
  {
    forall x: real {:trigger sqrt(x)} ::
      0.0 <= x ==> 0.0 <= sqrt(x) && sqrt(x) * sqrt(x) == x && (sqrt(x) == 0.0 <==> x == 0.0)
  }

  ghost predicate ValidLaw(law: Gravity)
  {
    law.G > 0.0 && IsSqrt(law.sqrt)
  }

  /** Componentwise sum (its laws: AddAbelianGroup). Go's Add overwrites its receiver; here callers assign the result back. */
  function Add(v: Vec, w: Vec): Vec
  {
    Vec(v.x + w.x, v.y + w.y)
  }

  function Scale(v: Vec, k: real): Vec
  {
    Vec(v.x * k, v.y * k)
  }

  function Neg(v: Vec): Vec
  {
    Vec(-v.x, -v.y)
  }

  /**
   * Add is commutative and associative, with Zero as its identity and Neg as its inverse. That
   * a whole sum of forces does not depend on the order of its terms is Force.DirectSumPermutation.
   */
  lemma AddAbelianGroup(u: Vec, v: Vec, w: Vec)
    ensures Add(u, v) == Add(v, u)
    ensures Add(Add(u, v), w) == Add(u, Add(v, w))
    ensures Add(u, Zero) == u && Add(Zero, u) == u
    ensures Add(u, Neg(u)) == Zero && Add(Add(u, v), Neg(v)) == u
  {
  }

  /** The velocity after a step of length t, from the star's current velocity and acceleration. */
  function NewVelocity(s: Star, t: real): Vec
  {
    Vec(s.velocity.x + s.acceleration.x * t, s.velocity.y + s.acceleration.y * t)
  }

  /** The position after a step of length t, from the star's current position, velocity and acceleration. */
  function NewPosition(s: Star, t: real): Vec
  {
    Vec(s.position.x + s.velocity.x * t + 0.5 * s.acceleration.x * t * t,
        s.position.y + s.velocity.y * t + 0.5 * s.acceleration.y * t * t)
  }

  /** A step of length zero changes neither velocity nor position. */
  lemma StepOfZeroLength(s: Star)
    ensures NewVelocity(s, 0.0) == s.velocity
    ensures NewPosition(s, 0.0) == s.position
  {
  }

  /**
   * NewPosition is exact under constant acceleration: the displacement over a step of
   * length t is t times the velocity NewVelocity reaches half-way through the step.
   */
  lemma {:induction false} DisplacementIsMidpointVelocity(s: Star, t: real)
    ensures NewPosition(s, t) == Add(s.position, Scale(NewVelocity(s, t / 2.0), t))
  {
    var h := NewVelocity(s, t / 2.0);
    assert h.x * t == s.velocity.x * t + 0.5 * s.acceleration.x * t * t;
    assert h.y * t == s.velocity.y * t + 0.5 * s.acceleration.y * t * t;
  }

  /**
   * Steps compose: with the acceleration held, a step of t1 followed by a step of t2 reaches
   * the same velocity and position as one step of t1 + t2.
   */
  lemma {:induction false} StepsCompose(s: Star, t1: real, t2: real)
    ensures var mid := s.(position := NewPosition(s, t1), velocity := NewVelocity(s, t1));
            && NewVelocity(mid, t2) == NewVelocity(s, t1 + t2)
            && NewPosition(mid, t2) == NewPosition(s, t1 + t2)
  {
    var mid := s.(position := NewPosition(s, t1), velocity := NewVelocity(s, t1));
    ComposeScalar(s.position.x, s.velocity.x, s.acceleration.x, t1, t2);
    ComposeScalar(s.position.y, s.velocity.y, s.acceleration.y, t1, t2);
    assert NewPosition(mid, t2).x == NewPosition(s, t1 + t2).x;
    assert NewPosition(mid, t2).y == NewPosition(s, t1 + t2).y;
  }

  /** One coordinate of StepsCompose. */
  lemma ComposeScalar(p: real, v: real, a: real, t1: real, t2: real)
    ensures v + a * t1 + a * t2 == v + a * (t1 + t2)
    ensures (p + v * t1 + 0.5 * a * t1 * t1) + (v + a * t1) * t2 + 0.5 * a * t2 * t2
         == p + v * (t1 + t2) + 0.5 * a * (t1 + t2) * (t1 + t2)
  {
    assert a * (t1 + t2) == a * t1 + a * t2;
    assert (t1 + t2) * (t1 + t2) == t1 * t1 + 2.0 * (t1 * t2) + t2 * t2;
    assert 0.5 * a * (t1 + t2) * (t1 + t2) == 0.5 * a * ((t1 + t2) * (t1 + t2));
    assert 0.5 * a * ((t1 + t2) * (t1 + t2)) == 0.5 * a * (t1 * t1) + a * (t1 * t2) + 0.5 * a * (t2 * t2);
    assert (v + a * t1) * t2 == v * t2 + a * (t1 * t2);
  }

  /** Acceleration from force: each component of F divided by the mass (the arithmetic of NewAccel). */
  function Accel(force: Vec, mass: real): (a: Vec)
    requires mass != 0.0
    ensures Scale(a, mass) == force
  {
    Vec(force.x / mass, force.y / mass)
  }

  /** Squared Euclidean distance between two points. */
  function SquaredDist(p: Vec, q: Vec): real
  {
    (p.x - q.x) * (p.x - q.x) + (p.y - q.y) * (p.y - q.y)
  }

  /** Euclidean distance between two stars' positions (its properties: DistIsMetric). */
  function Dist(law: Gravity, s1: Star, s2: Star): real
  {
    law.sqrt(SquaredDist(s1.position, s2.position))
  }

  /** The squared distance is symmetric, non-negative, and zero between equal points. */
  lemma SquaredDistProperties(p: Vec, q: Vec)
    ensures SquaredDist(p, q) == SquaredDist(q, p)
    ensures SquaredDist(p, q) >= 0.0
    ensures p == q ==> SquaredDist(p, q) == 0.0
  {
  }

  /** Distance is non-negative, symmetric, squares to the squared distance, and is zero for stars at the same place. */
  lemma {:induction false} DistIsMetric(law: Gravity, s1: Star, s2: Star)
    requires ValidLaw(law)
    ensures Dist(law, s1, s2) >= 0.0
    ensures Dist(law, s1, s2) * Dist(law, s1, s2) == SquaredDist(s1.position, s2.position)
    ensures Dist(law, s1, s2) == Dist(law, s2, s1)
    ensures s1.position == s2.position ==> Dist(law, s1, s2) == 0.0
  {
    SquaredDistProperties(s1.position, s2.position);
  }

  /**
   * Gravitational pull of s2 on s1: magnitude G*m1*m2/d^2 along the vector from s1 to s2.
   * At d == 0 the Go code divides by zero (NaN components); the model returns the zero vector.
   * Its direction and magnitude are GravityDirectionAndMagnitude, and Newton's third law is
   * GravityAntisymmetric.
   */
  function ComputeGravityForce(law: Gravity, s1: Star, s2: Star): Vec
  {
    var d := Dist(law, s1, s2);
    if d == 0.0 then Zero
    else
      Pull(ForceMagnitude(law.G, s1.mass, s2.mass, d), d, s1.position, s2.position)
  }

  /**
   * No force acts between a star and a star at the same place (where the Go code divides by
   * zero), nor when either star is massless, like the placeholder star of a fresh dummy.
   */
  lemma {:induction false} NoForceWithoutMassOrDistance(law: Gravity, s1: Star, s2: Star)
    ensures s1.position == s2.position ==> ComputeGravityForce(law, s1, s2) == Zero
    ensures s1.mass == 0.0 || s2.mass == 0.0 ==> ComputeGravityForce(law, s1, s2) == Zero
  {
    var d := Dist(law, s1, s2);
    if d != 0.0 && (s1.mass == 0.0 || s2.mass == 0.0) {
      assert law.G * s1.mass * s2.mass == 0.0;
      assert ForceMagnitude(law.G, s1.mass, s2.mass, d) == 0.0;
    }
  }

  /** A force of magnitude f directed from p towards q, at distance d: f times the offset q - p, divided by d. */
  function Pull(f: real, d: real, p: Vec, q: Vec): Vec
    requires d != 0.0
  {
    Vec(f * (q.x - p.x) / d, f * (q.y - p.y) / d)
  }

  /** The magnitude G*m1*m2/d^2 of the pull between masses m1 and m2 at distance d. */
  function ForceMagnitude(g: real, m1: real, m2: real, d: real): real
    requires d != 0.0
  {
    g * m1 * m2 / (d * d)
  }

  /** The magnitude does not depend on the order of the two masses and is positive for positive G and masses. */
  lemma MagnitudeProperties(g: real, m1: real, m2: real, d: real)
    requires d != 0.0
    ensures ForceMagnitude(g, m1, m2, d) == ForceMagnitude(g, m2, m1, d)
    ensures g > 0.0 && m1 > 0.0 && m2 > 0.0 ==> ForceMagnitude(g, m1, m2, d) > 0.0
  {
    assert g * m2 * m1 == g * m1 * m2;
    assert d * d > 0.0;
    if g > 0.0 && m1 > 0.0 && m2 > 0.0 {
      MulPositive(g, m1);
      MulPositive(g * m1, m2);
    }
  }

  /** Newton's third law: swapping the two stars negates the force. */
  lemma {:induction false} GravityAntisymmetric(law: Gravity, s1: Star, s2: Star)
    ensures ComputeGravityForce(law, s2, s1) == Neg(ComputeGravityForce(law, s1, s2))
  {
    DistSymmetric(law, s1, s2);
    var d := Dist(law, s1, s2);
    if d != 0.0 {
      MagnitudeProperties(law.G, s1.mass, s2.mass, d);
      PullReversed(ForceMagnitude(law.G, s1.mass, s2.mass, d), d, s1.position, s2.position);
    }
  }

  lemma DistSymmetric(law: Gravity, s1: Star, s2: Star)
    ensures Dist(law, s2, s1) == Dist(law, s1, s2)
  {
    SquaredDistProperties(s1.position, s2.position);
  }

  lemma PullReversed(f: real, d: real, p: Vec, q: Vec)
    requires d != 0.0
    ensures Pull(f, d, q, p) == Neg(Pull(f, d, p, q))
  {
    NegDiv(f, p.x, q.x, d);
    NegDiv(f, p.y, q.y, d);
  }

  lemma NegDiv(f: real, a: real, b: real, d: real)
    requires d != 0.0
    ensures f * (a - b) / d == -(f * (b - a) / d)
  {
  }

  /**
   * Away from d == 0 the force is parallel to the vector (dx, dy) from s1 to s2, points the same
   * way when G and both masses are positive, and its squared length is the squared magnitude
   * G*m1*m2/d^2.
   */
  lemma {:induction false} GravityDirectionAndMagnitude(law: Gravity, s1: Star, s2: Star)
    requires ValidLaw(law)
    requires Dist(law, s1, s2) != 0.0
    ensures var r := ComputeGravityForce(law, s1, s2);
            var dx := s2.position.x - s1.position.x;
            var dy := s2.position.y - s1.position.y;
            var f := ForceMagnitude(law.G, s1.mass, s2.mass, Dist(law, s1, s2));
            && r.x * dy == r.y * dx
            && (s1.mass > 0.0 && s2.mass > 0.0 ==> r.x * dx + r.y * dy > 0.0)
            && r.x * r.x + r.y * r.y == f * f
  {
    DistPositive(law, s1, s2);
    var d := Dist(law, s1, s2);
    var f := ForceMagnitude(law.G, s1.mass, s2.mass, d);
    var dx, dy := s2.position.x - s1.position.x, s2.position.y - s1.position.y;
    MagnitudeProperties(law.G, s1.mass, s2.mass, d);
    assert ComputeGravityForce(law, s1, s2) == Vec(f * dx / d, f * dy / d);
    ForceScalars(f, dx, dy, d);
  }

  /** A non-zero distance is positive and squares to dx^2 + dy^2 for the offset (dx, dy) from s1 to s2. */
  lemma DistPositive(law: Gravity, s1: Star, s2: Star)
    requires ValidLaw(law)
    requires Dist(law, s1, s2) != 0.0
    ensures var dx, dy := s2.position.x - s1.position.x, s2.position.y - s1.position.y;
            Dist(law, s1, s2) > 0.0 && Dist(law, s1, s2) * Dist(law, s1, s2) == dx * dx + dy * dy
  {
    DistIsMetric(law, s1, s2);
    SquaredDistProperties(s1.position, s2.position);
    assert SquaredDist(s2.position, s1.position)
        == (s2.position.x - s1.position.x) * (s2.position.x - s1.position.x)
         + (s2.position.y - s1.position.y) * (s2.position.y - s1.position.y);
  }

  /** Scalar core of GravityDirectionAndMagnitude, with d*d == dx^2 + dy^2. */
  lemma ForceScalars(f: real, dx: real, dy: real, d: real)
    requires d != 0.0 && d * d == dx * dx + dy * dy
    ensures (f * dx / d) * dy == (f * dy / d) * dx
    ensures (f * dx / d) * (f * dx / d) + (f * dy / d) * (f * dy / d) == f * f
    ensures f > 0.0 && d > 0.0 ==> (f * dx / d) * dx + (f * dy / d) * dy > 0.0
  {
    var k := f / d;
    DivSwap(f, dx, d);
    DivSwap(f, dy, d);
    assert k * d == f;
    assert (k * dx) * dy == (k * dy) * dx;
    assert (k * dx) * (k * dx) + (k * dy) * (k * dy) == (k * k) * (dx * dx + dy * dy);
    assert (k * k) * (d * d) == (k * d) * (k * d);
    assert (k * dx) * dx + (k * dy) * dy == (k * d) * d;
    if f > 0.0 && d > 0.0 {
      MulPositive(f, d);
    }
  }

  lemma DivSwap(f: real, a: real, d: real)
    requires d != 0.0
    ensures f * a / d == f / d * a
  {
  }

  lemma MulPositive(a: real, b: real)
    requires a > 0.0 && b > 0.0
    ensures a * b > 0.0
  {
  }
}
