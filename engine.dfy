/**
 * The simulation loop of engine.go. UpdateUniverse copies the universe, builds the quad tree
 * over the copy and aggregates it, then updates the copy's stars one after the other;
 * BarnesHut repeats this for a number of generations and keeps every snapshot.
 *
 * The tree's leaves refer to the copy's own stars, and Update changes a star in place, so a
 * star updated later in the same generation sees the NEW position of every star updated
 * before it (through the leaves), while the dummies keep the aggregates computed before the
 * loop. Sweep states exactly this order.
 */
module Engine {
  import opened Physics
  import opened QuadTree
  import opened TreeBuild
  import opened ClusterMass
  import opened Force

  /** Every star has positive mass. */
  predicate PositiveMasses(stars: seq<Star>)
  {
    forall k :: 0 <= k < |stars| ==> stars[k].mass > 0.0
  }

  /**
   * UpdateUniverse can run on u: the tree can be built (the descent loop ends for every star)
   * and the masses it divides by are positive.
   */
  predicate Ready(u: Universe)
  {
    Separated(u.stars, u.width) && PositiveMasses(u.stars)
  }

  /**
   * The tree UpdateUniverse walks: built over u's stars and aggregated. Its leaves hold each
   * star of u exactly once, and every walk over it is well defined.
   */
  ghost function Root(u: Universe): (r: Node)
    requires Ready(u)
    ensures r.Dummy? && Sound(r, |u.stars|)
    ensures multiset(Leaves(r)) == multiset(Range(|u.stars|))
  {
    var t := BuildTree(u.stars, u.width, |u.stars|);
    BuildTreeShaped(u.stars, u.width, |u.stars|);
    ShapedIsReady(t, u.stars, u.width);
    AggregateKeepsTree(t, u.stars);
    AggregateKeepsShape(t, u.stars, u.width);
    ShapedIsSound(Aggregate(t, u.stars), u.stars, u.width);
    Aggregate(t, u.stars)
  }

  /**
   * Star s after Update: the acceleration is the net force of the walk over root divided by
   * the mass, while velocity and position are advanced with the acceleration and velocity
   * the star held BEFORE the update. The mass is untouched.
   */
  function UpdatedStar(law: Gravity, root: Node, stars: seq<Star>, s: nat, t: real, theta: real): (r: Star)
    requires s < |stars| && Sound(root, |stars|) && stars[s].mass != 0.0
    ensures r.mass == stars[s].mass
    ensures Scale(r.acceleration, r.mass) == Contribution(law, root, stars, s, theta)
    ensures r.velocity == NewVelocity(stars[s], t) && r.position == NewPosition(stars[s], t)
  {
    var acc := Accel(Contribution(law, root, stars, s, theta), stars[s].mass);
    stars[s].(acceleration := acc, velocity := NewVelocity(stars[s], t), position := NewPosition(stars[s], t))
  }

  /**
   * The stars after the first i turns of UpdateUniverse's loop: turn k replaces star k by its
   * update computed over the stars as they are at that moment. Masses never change, and
   * the stars not yet reached are untouched.
   */
  function Sweep(law: Gravity, root: Node, stars: seq<Star>, t: real, theta: real, i: nat): (r: seq<Star>)
    requires i <= |stars| && Sound(root, |stars|) && PositiveMasses(stars)
    ensures |r| == |stars|
    ensures forall k :: 0 <= k < |r| ==> r[k].mass == stars[k].mass
    ensures forall k :: i <= k < |r| ==> r[k] == stars[k]
    decreases i
  {
    if i == 0 then stars
    else
      var prev := Sweep(law, root, stars, t, theta, i - 1);
      prev[i - 1 := UpdatedStar(law, root, prev, i - 1, t, theta)]
  }

  /** Turn i of the loop: star i, whose mass is still positive, is replaced by its update. */
  lemma SweepStep(law: Gravity, root: Node, stars: seq<Star>, t: real, theta: real, i: nat)
    requires i < |stars| && Sound(root, |stars|) && PositiveMasses(stars)
    ensures var prev := Sweep(law, root, stars, t, theta, i);
            && prev[i].mass > 0.0
            && Sweep(law, root, stars, t, theta, i + 1) == prev[i := UpdatedStar(law, root, prev, i, t, theta)]
  {
  }

  /** The universe after one generation. */
  ghost function StepUniverse(law: Gravity, u: Universe, t: real, theta: real): (r: Universe)
    requires Ready(u)
    ensures r.width == u.width && |r.stars| == |u.stars|
    ensures forall k :: 0 <= k < |u.stars| ==> r.stars[k].mass == u.stars[k].mass
  {
    Universe(Sweep(law, Root(u), u.stars, t, theta, |u.stars|), u.width)
  }

  /** The net force on star s divided by its mass (NewAccel of physics.go). */
  method NewAccel(law: Gravity, root: Node, stars: seq<Star>, s: nat, theta: real) returns (acc: Vec)
    requires s < |stars| && !root.Nil? && Sound(root, |stars|) && stars[s].mass != 0.0
    ensures acc == Accel(Contribution(law, root, stars, s, theta), stars[s].mass)
  {
    var f := ComputeNetForce(law, root, stars, s, theta);
    acc := Vec(f.x / stars[s].mass, f.y / stars[s].mass);
  }

  /**
   * Update of star s in place: the new acceleration, velocity and position are computed
   * first (the last two from the old acceleration) and then stored together. The walk sees
   * the array as it is now; no other star changes.
   */
  method Update(law: Gravity, stars: array<Star>, root: Node, s: nat, t: real, theta: real)
    requires s < stars.Length && !root.Nil? && Sound(root, stars.Length) && stars[s].mass != 0.0
    modifies stars
    ensures stars[..] == old(stars[..])[s := UpdatedStar(law, root, old(stars[..]), s, t, theta)]
  {
    var acc := NewAccel(law, root, stars[..], s, theta);
    var vel := NewVelocity(stars[s], t);
    var pos := NewPosition(stars[s], t);
    stars[s] := stars[s].(acceleration := acc, velocity := vel, position := pos);
  }

  /** CopyUniverse: a fresh array holding a copy of each star. */
  method CopyStars(stars: seq<Star>) returns (a: array<Star>)
    ensures fresh(a) && a[..] == stars
  {
    a := new Star[|stars|];
    for i := 0 to |stars|
      invariant a[..i] == stars[..i]
    {
      a[i] := stars[i];
    }
  }

  /**
   * The root of a generation's tree carries the total mass of all the stars, and when there
   * is a star it sits at their centre of mass: the sum of their moments divided by that mass.
   */
  lemma RootIsCentreOfMass(u: Universe)
    requires Ready(u)
    ensures Weighted(Range(|u.stars|), u.stars)
    ensures Root(u).star.mass == MassSum(Range(|u.stars|), u.stars)
    ensures |u.stars| > 0 ==>
              && MassSum(Range(|u.stars|), u.stars) > 0.0
              && Root(u).star.position.x == Moment(Range(|u.stars|), u.stars).x / MassSum(Range(|u.stars|), u.stars)
              && Root(u).star.position.y == Moment(Range(|u.stars|), u.stars).y / MassSum(Range(|u.stars|), u.stars)
  {
    var n := |u.stars|;
    var t := BuildTree(u.stars, u.width, n);
    TreeReady(u);
    AggregateKeepsTree(t, u.stars);
    AggregatedStarIsSummary(t, u.stars);
    assert multiset(Leaves(t)) == multiset(Range(n));
    MassSumPermutation(Leaves(t), Range(n), u.stars);
    if n > 0 {
      assert Range(n)[0] in multiset(Leaves(t));
      SummaryIsCentreOfMass(t, u.stars);
    }
  }

  /** The built tree of a Ready universe can be aggregated, and aggregating it gives Root. */
  lemma TreeReady(u: Universe)
    requires Ready(u)
    ensures var t := BuildTree(u.stars, u.width, |u.stars|);
            && !t.Nil? && Populated(t) && Weighted(Leaves(t), u.stars)
            && Root(u) == Aggregate(t, u.stars)
  {
    BuildTreeShaped(u.stars, u.width, |u.stars|);
    ShapedIsReady(BuildTree(u.stars, u.width, |u.stars|), u.stars, u.width);
  }

  /** The part of a generation before the updates: copy the stars, build the tree over the copy, aggregate it. */
  method PrepareGeneration(current: Universe) returns (stars: array<Star>, root: Node)
    requires Ready(current)
    ensures fresh(stars) && stars[..] == current.stars
    ensures root == Root(current)
  {
    stars := CopyStars(current.stars);
    var tree := BuildQuadTree(Universe(stars[..], current.width));
    TreeReady(current);
    var summary;
    root, summary := AssignClusterPos(tree, stars[..]);
  }

  /**
   * One generation: copy the stars, build the tree over the copy, aggregate it, then update
   * the copy's stars in index order.
   */
  method UpdateUniverse(law: Gravity, current: Universe, t: real, theta: real) returns (next: Universe)
    requires Ready(current)
    ensures next == StepUniverse(law, current, t, theta)
  {
    var stars, root := PrepareGeneration(current);
    UpdateInOrder(law, stars, root, current.stars, t, theta);
    next := Universe(stars[..], current.width);
  }

  /** The loop of UpdateUniverse: every star of the copy, in index order, is replaced by its update. */
  method UpdateInOrder(law: Gravity, stars: array<Star>, root: Node, initial: seq<Star>, t: real, theta: real)
    requires stars[..] == initial && !root.Nil? && Sound(root, |initial|) && PositiveMasses(initial)
    modifies stars
    ensures stars[..] == Sweep(law, root, initial, t, theta, |initial|)
  {
    for s := 0 to stars.Length
      invariant stars.Length == |initial|
      invariant stars[..] == Sweep(law, root, initial, t, theta, s)
    {
      SweepStep(law, root, initial, t, theta, s);
      Update(law, stars, root, s, t, theta);
    }
  }

  /** One generation as a total map on universes: a universe that is not Ready is left as it is. */
  ghost function Next(law: Gravity, t: real, theta: real): Universe -> Universe
  {
    u => if Ready(u) then StepUniverse(law, u, t, theta) else u
  }

  /** f applied i times to u. */
  ghost function Iterate(f: Universe -> Universe, u: Universe, i: nat): Universe
    decreases i
  {
    if i == 0 then u else f(Iterate(f, u, i - 1))
  }

  /** The universe after i generations. */
  ghost function Evolve(law: Gravity, u: Universe, i: nat, t: real, theta: real): Universe
  {
    Iterate(Next(law, t, theta), u, i)
  }

  /** BarnesHut can run numGens generations from u: every universe it updates is Ready. */
  ghost predicate Runs(law: Gravity, u: Universe, numGens: nat, t: real, theta: real)
  {
    forall i: nat :: i < numGens ==> Ready(Evolve(law, u, i, t, theta))
  }

  /**
   * numGens + 1 snapshots: the initial universe, then each one the update of the one
   * before it.
   */
  method BarnesHut(law: Gravity, initial: Universe, numGens: nat, time: real, theta: real)
    returns (timePoints: array<Universe>)
    requires Runs(law, initial, numGens, time, theta)
    ensures timePoints.Length == numGens + 1
    ensures timePoints[0] == initial
    ensures forall i :: 0 <= i <= numGens ==> timePoints[i] == Evolve(law, initial, i, time, theta)
  {
    timePoints := new Universe[numGens + 1];
    timePoints[0] := initial;
    for i := 1 to numGens + 1
      invariant forall j :: 0 <= j < i ==> timePoints[j] == Evolve(law, initial, j, time, theta)
    {
      Snapshots(law, initial, numGens, time, theta, i);
      ghost var before := timePoints[..i];
      var next := UpdateUniverse(law, timePoints[i - 1], time, theta);
      timePoints[i] := next;
      assert timePoints[..i] == before;
    }
  }

  /** Consecutive snapshots: each is one update of the one before it. */
  lemma Snapshots(law: Gravity, initial: Universe, numGens: nat, time: real, theta: real, i: nat)
    requires Runs(law, initial, numGens, time, theta) && 0 < i <= numGens
    ensures Ready(Evolve(law, initial, i - 1, time, theta))
    ensures Evolve(law, initial, i, time, theta) == StepUniverse(law, Evolve(law, initial, i - 1, time, theta), time, theta)
  {
    assert Evolve(law, initial, i, time, theta) == Next(law, time, theta)(Evolve(law, initial, i - 1, time, theta));
  }

  /** Star k is final once its turn is over: later turns leave it alone. */
  lemma {:induction false} SweepSettled(law: Gravity, root: Node, stars: seq<Star>, t: real, theta: real, i: nat, k: nat)
    requires k < i <= |stars| && Sound(root, |stars|) && PositiveMasses(stars)
    ensures var prev := Sweep(law, root, stars, t, theta, k);
            && prev[k].mass > 0.0
            && Sweep(law, root, stars, t, theta, i)[k] == UpdatedStar(law, root, prev, k, t, theta)
    decreases i
  {
    SweepStep(law, root, stars, t, theta, i - 1);
    if k < i - 1 {
      SweepSettled(law, root, stars, t, theta, i - 1, k);
    }
  }

  /** Two sequences of stars that agree on every position and mass (velocities may differ). */
  predicate SameBodies(a: seq<Star>, b: seq<Star>)
  {
    |a| == |b| && forall k :: 0 <= k < |a| ==> a[k].position == b[k].position && a[k].mass == b[k].mass
  }

  lemma GravityOfBodies(law: Gravity, s1: Star, s2: Star, t1: Star, t2: Star)
    requires s1.position == t1.position && s1.mass == t1.mass
    requires s2.position == t2.position && s2.mass == t2.mass
    ensures Dist(law, s1, s2) == Dist(law, t1, t2)
    ensures ComputeGravityForce(law, s1, s2) == ComputeGravityForce(law, t1, t2)
  {
  }

  /** The walk looks only at the stars' positions and masses. */
  lemma {:induction false} ContributionOfBodies(law: Gravity, n: Node, a: seq<Star>, b: seq<Star>, s: nat, theta: real)
    requires SameBodies(a, b) && s < |a| && Sound(n, |a|)
    ensures Contribution(law, n, a, s, theta) == Contribution(law, n, b, s, theta)
    decreases n, 1
  {
    match n
    case Nil =>
    case Leaf(k, _) =>
      GravityOfBodies(law, a[s], a[k], b[s], b[k]);
      GravityOfBodies(law, a[k], a[s], b[k], b[s]);
    case Dummy(st, _, cs) =>
      GravityOfBodies(law, st, a[s], st, b[s]);
      GravityOfBodies(law, a[s], st, b[s], st);
      SumContribOfBodies(law, cs, a, b, s, theta);
  }

  lemma {:induction false} SumContribOfBodies(law: Gravity, q: seq<Node>, a: seq<Star>, b: seq<Star>, s: nat, theta: real)
    requires SameBodies(a, b) && s < |a| && SoundSlots(q, |a|)
    ensures SumContrib(law, q, a, s, theta) == SumContrib(law, q, b, s, theta)
    decreases q, 0
  {
    if q != [] {
      ContributionOfBodies(law, q[0], a, b, s, theta);
      SumContribOfBodies(law, q[1..], a, b, s, theta);
    }
  }

  /** With a step of length zero no star moves and no velocity changes, at any turn of the loop. */
  lemma {:induction false} ZeroStepKeepsMotion(law: Gravity, root: Node, stars: seq<Star>, theta: real, i: nat)
    requires i <= |stars| && Sound(root, |stars|) && PositiveMasses(stars)
    ensures var r := Sweep(law, root, stars, 0.0, theta, i);
            forall k :: 0 <= k < |stars| ==> r[k].position == stars[k].position && r[k].velocity == stars[k].velocity
    decreases i
  {
    if i > 0 {
      ZeroStepKeepsMotion(law, root, stars, theta, i - 1);
      SweepStep(law, root, stars, 0.0, theta, i - 1);
      StepOfZeroLength(Sweep(law, root, stars, 0.0, theta, i - 1)[i - 1]);
    }
  }

  /**
   * With a step of length zero the in-place order does not matter: every star gets the
   * acceleration computed over the universe as it was before the generation.
   */
  lemma ZeroStepIsSimultaneous(law: Gravity, u: Universe, theta: real, k: nat)
    requires Ready(u) && k < |u.stars|
    ensures StepUniverse(law, u, 0.0, theta).stars[k] == UpdatedStar(law, Root(u), u.stars, k, 0.0, theta)
  {
    var root := Root(u);
    var n := |u.stars|;
    SweepSettled(law, root, u.stars, 0.0, theta, n, k);
    var prev := Sweep(law, root, u.stars, 0.0, theta, k);
    ZeroStepKeepsMotion(law, root, u.stars, theta, k);
    assert SameBodies(prev, u.stars);
    ContributionOfBodies(law, root, prev, u.stars, k, theta);
    StepOfZeroLength(prev[k]);
    StepOfZeroLength(u.stars[k]);
  }

  /**
   * With theta <= 0 the walk over the tree is the direct sum over all stars of the universe:
   * whatever the stars' current positions, the tree's leaves name each star exactly once.
   */
  lemma ExactForNonPositiveTheta(law: Gravity, u: Universe, stars: seq<Star>, s: nat, theta: real)
    requires ValidLaw(law) && theta <= 0.0 && Ready(u) && |stars| == |u.stars| && s < |stars|
    ensures InBounds(Range(|stars|), |stars|)
    ensures Contribution(law, Root(u), stars, s, theta) == DirectSum(law, stars, s, Range(|stars|))
  {
    var root := Root(u);
    OpenedTreeIsDirect(law, root, stars, s, theta);
    DirectSumPermutation(law, stars, s, Leaves(root), Range(|stars|));
  }

  /**
   * With theta <= 0 one generation is the brute-force N-body step: star k's new acceleration
   * times its mass is the sum of the pulls of all other stars, as they stand at its turn.
   */
  lemma BruteForceStep(law: Gravity, u: Universe, t: real, theta: real, k: nat)
    requires ValidLaw(law) && theta <= 0.0 && Ready(u) && k < |u.stars|
    ensures InBounds(Range(|u.stars|), |u.stars|)
    ensures Scale(StepUniverse(law, u, t, theta).stars[k].acceleration, u.stars[k].mass)
            == DirectSum(law, Sweep(law, Root(u), u.stars, t, theta, k), k, Range(|u.stars|))
  {
    var root := Root(u);
    SweepSettled(law, root, u.stars, t, theta, |u.stars|, k);
    var prev := Sweep(law, root, u.stars, t, theta, k);
    ExactForNonPositiveTheta(law, u, prev, k, theta);
  }
}
