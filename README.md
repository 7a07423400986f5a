# Barnes-Hut quad-tree N-body simulation, modelled in Dafny

This project models the core of a two-dimensional Barnes-Hut gravity simulator. A universe
is a square of side `width` holding stars with a position, velocity, acceleration and mass.
One generation of the simulation does four things:

1. It copies the universe.
2. It builds a quad tree over the copy's stars. Every internal ("dummy") node has four slots,
   NW, NE, SW and SE, and each leaf holds one star.
3. It aggregates every dummy into the centre of mass of the stars below it.
4. It updates every star from the net force that a breadth-first walk of the tree puts on it.
   The walk opens a node when the ratio of its side to its distance exceeds `theta`;
   otherwise it treats the whole node as a single body.

The driver keeps a snapshot of every generation.

The model works over exact reals. The gravitational constant `G` and the square root are
parameters, bundled as `Physics.Gravity`. The lemmas that need them assume `G > 0` and that
`sqrt` is a square root (`Physics.ValidLaw`).

The modules follow the source files:

| module | file | form |
|---|---|---|
| `Physics` (physics.dfy) | physics.go | functions and lemmas |
| `Quadrants` (quadrant.dfy) | sector geometry of quad-tree.go | functions and lemmas |
| `QuadTree` (tree.dfy) | the tree as a value; the recursive specification of inserting one star | functions and lemmas |
| `TreeBuild` (build.dfy) | BuildQuadTree | methods proved equal to the specification |
| `ClusterMass` (mass.dfy) | AssignClusterPos and the centre-of-mass helpers | methods and functions |
| `Force` (force.dfy) | ComputeNetForce and Theta | methods and functions |
| `Engine` (engine.dfy) | UpdateUniverse, Star.Update and BarnesHut | methods and functions |

A tree node is the datatype `QuadTree.Node`: `Nil`, `Leaf(index, sector)` or
`Dummy(star, sector, children)`.

- A leaf holds the INDEX of its star in the universe. The Go leaf points at the copy's own
  star, so the force walk sees that star's current fields.
- The walk recognises the star being updated by pointer identity (engine.go:70). In the model
  this is equality of indices.
- Because UpdateUniverse updates the copy's stars one at a time, a star updated later in a
  generation feels the NEW positions of the stars updated before it. Dummies keep the
  aggregates computed before the loop.
- `Engine.Sweep` states this order exactly. In general the order matters;
  `Engine.ZeroStepIsSimultaneous` shows one case where it does not, a step of length zero.

Every loop in the source is a `method` with a `while`/`for` loop proved against a
specification function:

- BuildQuadTree's descent walks down a zipper path and is proved equal to the recursive
  `QuadTree.Insert`.
- AssignClusterPos is proved equal to `ClusterMass.Aggregate` / `ClusterMass.Summary`.
- ComputeNetForce's queue walk is proved equal to the recursive `Force.Contribution`.
- UpdateUniverse's loop is proved equal to `Engine.Sweep`.
- BarnesHut's loop is proved equal to iterating `Engine.StepUniverse`.

The specifications are related to independent definitions:

- the aggregate of a node is the mass-weighted mean of the stars below it;
- the tree holds every star exactly once, and routing finds each one again;
- with `theta <= 0` the walk equals the direct O(n²) sum over all stars, in any order.

`Star.Update` computes the new velocity and position from the acceleration and velocity the
star held BEFORE this generation (engine.go:37-40), and the model does the same. The
source's own comments point the other way: physics.go:21 describes NewPosition as using the
updated acceleration and velocity, and engine.go:35 notes that Update still has to be changed
to use the current acceleration, velocity and position.

## Model

| member | source | states |
|---|---|---|
| Physics.Add | physics.go:8-11 | Computes the componentwise sum of two vectors; the caller stores it back where Go's Add overwrites its receiver. Its laws are AddAbelianGroup |
| Physics.AddAbelianGroup | physics.go:8-11 | Add is commutative and associative, with the zero vector as identity and Neg as inverse: adding a vector and then its negation gives back the start |
| Physics.NewVelocity | physics.go:14-19 | Computes the velocity after a step of length t under the star's acceleration. Its properties are StepOfZeroLength and StepsCompose |
| Physics.NewPosition | physics.go:22-27 | Computes the position after a step of length t from the star's position, velocity and acceleration. Its properties are StepOfZeroLength, StepsCompose and DisplacementIsMidpointVelocity |
| Physics.StepOfZeroLength | physics.go:14-27 | A step of length zero leaves both velocity and position unchanged |
| Physics.StepsCompose | physics.go:14-27 | With the acceleration held, a step of t1 followed by a step of t2 gives the same velocity and position as one step of t1 + t2 |
| Physics.DisplacementIsMidpointVelocity | physics.go:14-27 | NewPosition is exact under constant acceleration: the displacement is t times the velocity NewVelocity reaches at t/2 |
| Physics.Accel | physics.go:30-36 | The acceleration times the mass gives back the force (F = m·a) |
| Physics.Dist | physics.go:53-58 | Computes the square root, via the law's sqrt, of dx²+dy² between the two positions. Its properties are DistIsMetric and DistSymmetric |
| Physics.SquaredDistProperties | physics.go:53-58 | The squared distance is symmetric, non-negative, and zero between equal points |
| Physics.DistIsMetric | physics.go:53-58 | The distance is non-negative and symmetric, squares to dx²+dy², and is zero for stars at the same place |
| Physics.DistSymmetric | physics.go:53-58 | Dist(s2, s1) == Dist(s1, s2) |
| Physics.ComputeGravityForce | physics.go:39-50 | Computes the pull of s2 on s1: magnitude G·m1·m2/d² along (deltaX, deltaY)/d, and the zero vector at d = 0 (see Left out). Its properties are NoForceWithoutMassOrDistance, GravityAntisymmetric and GravityDirectionAndMagnitude |
| Physics.NoForceWithoutMassOrDistance | physics.go:39-50 | Two stars at the same place exert no force on each other, and neither does a massless star (such as a fresh dummy's placeholder) exert or feel any |
| Physics.MagnitudeProperties | physics.go:43 | G·m1·m2/d² does not depend on the order of the masses, and is positive for positive G and masses |
| Physics.GravityAntisymmetric | physics.go:39-50 | Newton's third law: the force of s1 on s2 is the negation of the force of s2 on s1 |
| Physics.GravityDirectionAndMagnitude | physics.go:39-50 | For d ≠ 0 the force is parallel to the vector from s1 to s2, points towards s2 for positive masses, and has length G·m1·m2/d² |
| Quadrants.WhichSubQuad | quad-tree.go:204-222 | The result is in 0..3; it is below 2 (north) iff y is strictly above the centre, and even (west) iff x is strictly left of the centre |
| Quadrants.FindNewQuad | quad-tree.go:235-261 | The sub-square has half the side and, for i in 0..3 and a non-negative side, lies inside the parent square; any other i gives corner (0, 0), as no case of the switch applies |
| Quadrants.SubQuadsDistinct | quad-tree.go:235-261 | For a positive side the four sub-squares have pairwise different corners |
| Quadrants.RoutedPointStaysInside | quad-tree.go:204-261 | A point inside a square is inside the sub-square that whichSubQuad routes it to |
| Quadrants.IsInUniverse | quad-tree.go:225-232 | The closed-bounds test holds exactly when clamping the position to the bounding square leaves it unchanged |
| Quadrants.ClampFixesExactlyTheUniverse | quad-tree.go:225-232 | isInUniverse holds exactly when clamping to the universe leaves the position unchanged, and exactly when the position lies in the root square; clamped positions always lie in it |
| Quadrants.ClampKeepsRoute | quad-tree.go:204-222 | For a sector inside the universe, a point and its clamped image are routed to the same sub-square |
| QuadTree.InitRoot | quad-tree.go:173-194 | The root is a dummy over the square (0, 0, width) whose massless star sits at the centre, with four empty slots and no leaves |
| QuadTree.NewDummy | quad-tree.go:264-296 | The new dummy has four empty slots, half the parent's side and a placeholder star at its centre; when the parent's star is at the centre of its sector, the sector is exactly sub-square i |
| QuadTree.Insert | quad-tree.go:17-48 | Inserting star j keeps the node's sector and star and keeps the tree shaped; the leaves gain exactly j (as a multiset) |
| QuadTree.InsertBelow | quad-tree.go:23-40 | The same as Insert for an occupied slot: a dummy there is descended into; a leaf there is split under a new dummy and re-hung where it is routed |
| TreeBuild.InitRootShaped | quad-tree.go:173-194 | The initial root of a universe with positive width is a shaped tree of placeholders |
| TreeBuild.BuildTreeShaped | quad-tree.go:12-51 | After inserting the first n stars the tree is a shaped dummy whose leaves are exactly the stars 0..n-1 |
| TreeBuild.EveryStarInOneLeaf | quad-tree.go:12-51 | The finished tree has one leaf per star and holds every star exactly once |
| TreeBuild.RouteFindsStar | quad-tree.go:19-39 | Following whichSubQuad from the root with a star's position ends at that star's own leaf |
| TreeBuild.InsertStar | quad-tree.go:17-48 | One turn of the outer loop (the descent and the final placement) turns the tree over the first i stars into the tree over the first i+1 |
| TreeBuild.BuildQuadTree | quad-tree.go:12-51 | The method's tree equals the specification tree over all stars of the universe |
| ClusterMass.WeightedMean | quad-tree.go:121-149 | The result, scaled by the combined mass, is the sum of the two moments |
| ClusterMass.CenterOfMass | quad-tree.go:121-133 | (n.mass + m.mass) · result == n.mass · n.position + m.mass · m.position |
| ClusterMass.CenterOfMass2 | quad-tree.go:136-149 | The same balance of moments for a star and an aggregated pseudo-star |
| ClusterMass.CenterOfMassExample | quad-tree.go:121-133 | Two unit masses at (0, 0) and (10, 0) balance at (5, 0) |
| ClusterMass.MassSumPositive | quad-tree.go:100-110 | The masses absorbed into a dummy add up to a non-negative total, which is positive when there is at least one star |
| ClusterMass.MassSumPermutation | quad-tree.go:98-111 | The total mass and total moment of a list of stars are the same for every ordering of the list, so the order in which a dummy absorbs its children does not change its aggregate |
| ClusterMass.Absorb | quad-tree.go:103-110 | Absorbing a slot adds exactly the mass of the stars below it and leaves velocity and acceleration alone |
| ClusterMass.Accumulate | quad-tree.go:98-111 | After absorbing the slots, the running mass is the start mass plus the masses of all stars below them |
| ClusterMass.Summary | quad-tree.go:94-118 | The mass returned for a node is the total mass of the stars below it |
| ClusterMass.SummaryIsCentreOfMass | quad-tree.go:94-118 | A non-empty node's aggregate has the total mass of its stars (positive), and its position is their moment divided by that mass, i.e. their centre of mass |
| ClusterMass.AggregateKeepsTree | quad-tree.go:94-118 | Aggregation keeps every node's kind, sector, slot count and leaves; leaves are unchanged and only dummies' stars change |
| ClusterMass.AggregateKeepsShape | quad-tree.go:94-118 | A shaped tree stays shaped after aggregation |
| ClusterMass.AggregatedStarIsSummary | quad-tree.go:94-118 | An aggregated dummy's star carries the position and mass of the node's summary |
| ClusterMass.ShapedIsReady | quad-tree.go:94-118 | A built tree over stars of positive mass satisfies what aggregation needs: no empty dummies, and every leaf names a star of positive mass |
| ClusterMass.RealChildrenMembers | quad-tree.go:152-160 | The non-empty-children list contains no empty slot and contains every occupied slot |
| ClusterMass.RealChildrenLeaves | quad-tree.go:152-160 | The non-empty-children list has the same leaves in the same order as the slots |
| ClusterMass.RealChildrenAccumulate | quad-tree.go:97-111 | Looping over the non-empty children, as the source does, aggregates exactly as looping over all four slots does |
| ClusterMass.GetRealChildren | quad-tree.go:152-160 | Returns the occupied slots in slot order (none for a leaf) |
| ClusterMass.AbsorbChild | quad-tree.go:103-110 | One pass of the loop: the running star absorbs the child (a leaf by CenterOfMass, a dummy's recursive aggregate by CenterOfMass2), giving Absorb's result and the child's aggregated form |
| ClusterMass.AssignClusterPos | quad-tree.go:94-118 | Returns the aggregated tree and the node's summary (its centre of mass and total mass, by SummaryIsCentreOfMass) |
| Force.Opens | engine.go:74-75 | The test Theta(n, star) > theta with Theta = width / d (engine.go:94-98): at a positive distance it holds exactly when the side exceeds theta times the distance; at d = 0 it follows the floating-point quotient (see Left out) |
| Force.ComputeNetForce | engine.go:59-90 | The queue walk returns exactly the recursive contribution of the root; the loop invariant is that the net force so far plus the queue's contribution equals the root's contribution |
| Force.EnqueueChildren | engine.go:77-81 | The queue gains the node's non-empty children, in slot order |
| Force.TakenHead | engine.go:66-88 | Taking the head of the queue splits its contribution into the head's plus the rest, and lowers the queue's weight |
| Force.OpenedHead | engine.go:74-82 | Replacing an opened head by its non-empty children keeps the queue's total contribution and lowers its weight, so the walk terminates |
| Force.SumContribAppend | engine.go:77-81 | The contribution of a concatenated queue is the sum of the parts' contributions |
| Force.SumContribRealChildren | engine.go:77-81 | Skipping the empty slots does not change the children's total contribution |
| Force.SelfLeafIsSkipped | engine.go:70-82 | The star's own leaf contributes nothing: it fails the identity test, its Theta is +Inf, and it has no children |
| Force.ClosedNodeIsOneBody | engine.go:83-85 | A dummy that is not opened contributes the gravity of its aggregated star alone |
| Force.AlwaysOpens | engine.go:94-98 | For a positive side, a non-negative distance and theta ≤ 0, the Theta test always opens the node |
| Force.DirectSumAppend | engine.go:66-88 | The direct pairwise sum over a concatenation is the sum over the parts |
| Force.DirectSumPermutation | engine.go:66-88 | The direct pairwise sum does not depend on the order of the stars summed |
| Force.OpenedTreeIsDirect | engine.go:59-98 | With theta ≤ 0 the walk over a node equals the direct sum of pairwise forces over the node's leaves |
| Force.ShapedIsSound | quad-tree.go:12-51 | A built tree is sound for the walk: leaves name stars and every sector has a positive side |
| Engine.Root | engine.go:24-25 | The aggregated tree of a ready universe is a sound dummy whose leaves are every star index exactly once |
| Engine.RootIsCentreOfMass | quad-tree.go:94-118 | The root of a generation's aggregated tree carries the total mass of all stars and, when there is a star, sits at their centre of mass (sum of moments over total mass) |
| Engine.UpdatedStar | engine.go:36-41 | The mass is kept; the new acceleration times the mass is the walk's net force; velocity and position are advanced from the star's OLD fields |
| Engine.NewAccel | physics.go:30-36 | The acceleration is the walk's net force divided by the star's mass |
| Engine.Update | engine.go:36-41 | Star s of the array becomes its update and no other star changes |
| Engine.CopyStars | engine.go:21 | A fresh array holding exactly the universe's stars |
| Engine.Sweep | engine.go:27-30 | After i turns, masses are unchanged and the stars not yet reached are untouched |
| Engine.SweepStep | engine.go:27-30 | Turn i replaces star i by its update, computed over the stars as they are after the earlier turns |
| Engine.SweepSettled | engine.go:27-30 | Once its turn is over a star is final: later turns do not change it |
| Engine.StepUniverse | engine.go:20-33 | One generation keeps the width, the number of stars and every mass |
| Engine.TreeReady | engine.go:24-25 | The built tree of a ready universe can be aggregated, and aggregating it gives Root |
| Engine.PrepareGeneration | engine.go:21-25 | Returns a fresh copy of the universe's stars and the tree built over them and aggregated, which is Root of the universe |
| Engine.UpdateInOrder | engine.go:27-31 | After the loop, the array holds the stars after all turns of Sweep: each star in index order replaced by its update over the stars as they are at its turn |
| Engine.UpdateUniverse | engine.go:20-33 | The returned universe is exactly one generation, StepUniverse, of the current one |
| Engine.BarnesHut | engine.go:7-17 | Returns numGens+1 snapshots; the first is the initial universe and snapshot i is the i-th generation |
| Engine.Snapshots | engine.go:11-15 | Each generation is one step of the previous one, which is ready to be stepped |
| Engine.GravityOfBodies | physics.go:39-58 | Distance and gravity depend only on the positions and masses of the two stars |
| Engine.ContributionOfBodies | engine.go:59-98 | The walk's result depends only on the stars' positions and masses |
| Engine.ZeroStepKeepsMotion | engine.go:36-41 | With t = 0 no star moves and no velocity changes, at any turn of the loop |
| Engine.ZeroStepIsSimultaneous | engine.go:27-30 | With t = 0 every star's update is computed over the universe as it was before the generation |
| Engine.ExactForNonPositiveTheta | engine.go:59-98 | With theta ≤ 0 the walk over the generation's tree equals the direct sum of pairwise forces over all stars |
| Engine.BruteForceStep | engine.go:20-41 | With theta ≤ 0 a star's new acceleration times its mass is the brute-force sum of the pulls of all other stars, as they stand at its turn |

## Left out

- main.go (reading and writing files, drawing, the command line) and `QuadTree.Print` are
  I/O and are not modelled.
- Floating point is not modelled. The model uses exact reals, so rounding, overflow, NaN and
  infinities are out of scope.
- `G` and `math.Sqrt` come from outside the modelled files. They are parameters, and the
  lemmas that need them assume `ValidLaw`.
- Physics.ComputeGravityForce: at distance zero the source divides by zero (NaN components);
  the model returns the zero vector there. The only case this covers is two stars at the
  same position.
- Force.Opens: Theta's quotient `width / d` is folded into the comparison with `theta`. At
  d = 0 it follows the floating-point result: a positive side gives +Inf, which opens the
  node, and side 0 gives NaN, which does not. Force.AlwaysOpens states the test's contract.
- TreeBuild.BuildQuadTree requires the clamped star positions to be pairwise distinct and the
  width to be positive (`TreeBuild.Separated`). For a positive width, on stars whose clamped
  positions coincide the source's descent loops forever, so the model does not cover that
  case. A width of 0 or less is excluded as a degenerate input, although the source's loop
  can end there (for instance with at most one star).
- Engine.UpdateUniverse and ClusterMass.AssignClusterPos require positive masses. The source
  itself runs with negative masses too (CenterOfMass and NewAccel divide by them without
  fault). It divides by zero only when a mass, or a running mass sum in CenterOfMass or
  CenterOfMass2, is 0. Non-positive masses are left out as unphysical, and the
  centre-of-mass lemmas rely on positive weights.
- Engine.BarnesHut requires every generation it computes to be ready (`Engine.Runs`), and the
  model does not cover generations that are not. On some of them the source loops forever
  building the tree: coinciding clamped positions, as barnes-hut_test.go:97 warns. On others
  it divides by zero: a zero mass or a zero running mass sum. Others it runs without fault,
  for instance some universes of width 0 or less, and stars with negative masses.
- Engine.BarnesHut: `numGens` is a `nat`, so a negative count (which makes the source panic)
  is not modelled.
- Physics.Add: the source's `Add` updates its receiver in place. The model's `Add` returns
  the sum, and the caller assigns it back.
- ClusterMass.AssignClusterPos loops over the four slots and skips empty ones. The source
  loops over `GetRealChildren`. ClusterMass.RealChildrenAccumulate proves the two the same.
  The source mutates each dummy's star in place; the model returns the aggregated tree as a
  new value.
- AssignClutserMass (quad-tree.go:74-86) is commented out in the source and is not modelled.
- Quad-tree nodes are values, not shared pointers. The only sharing the source relies on is
  the leaves pointing at the copied universe's stars, and the model keeps it as star indices.
- CopyUniverse and the type declarations (Universe, Star, Node, Quadrant, OrderedPair) are
  not part of this model's source files. CopyUniverse is modelled as `Engine.CopyStars`,
  which copies the star values into a fresh array. Colour and radius fields are used only
  for drawing and are dropped.
- The recursive `Force.Contribution` adds children's forces in slot order, while the
  source's breadth-first queue adds them level by level. Force.ComputeNetForce is proved to
  return the same vector over exact reals; floating-point summation order is not modelled.
