/**
 * BuildQuadTree of quad-tree.go: the stars are inserted one after the other, each by a
 * descent loop from the root. The source mutates the child slots of the nodes it walks
 * through; here the tree is a value, and the loop keeps the path it walked (each ancestor
 * with the slot taken) so that the changed node can be put back in place.
 */
module TreeBuild {
  import opened Physics
  import opened Quadrants
  import opened QuadTree

  /**
   * The universe has positive side and no two stars share their position once clamped to
   * the universe's square. For a positive side, the descent loop terminates for every star
   * exactly under the second condition: stars with equal clamped positions are routed alike
   * at every level (ClampKeepsRoute), so splitting never separates them. A side of 0 or less
   * is excluded as a degenerate universe.
   */
  predicate Separated(stars: seq<Star>, w: real)
  {
    w > 0.0 &&
    forall a, b :: 0 <= a < b < |stars| ==> Clamp(stars[a].position, w) != Clamp(stars[b].position, w)
  }

  function Range(n: nat): (r: seq<nat>)
    ensures |r| == n && forall i :: 0 <= i < n ==> r[i] == i
  {
    if n == 0 then [] else Range(n - 1) + [n - 1]
  }

  /** A positive lower bound on the clamped distance from star j to each of stars 0..upto-1 other than j. */
  ghost function Gap(stars: seq<Star>, w: real, j: nat, upto: nat): (g: real)
    requires Separated(stars, w) && j < |stars| && upto <= |stars|
    ensures g > 0.0
    ensures forall k :: 0 <= k < upto && k != j ==>
              Cheb(Clamp(stars[j].position, w), Clamp(stars[k].position, w)) >= g
    decreases upto
  {
    if upto == 0 then 1.0
    else
      var g := Gap(stars, w, j, upto - 1);
      if upto - 1 == j then g
      else
        var c := Cheb(Clamp(stars[j].position, w), Clamp(stars[upto - 1].position, w));
        if c < g then c else g
  }

  /** The tree after inserting stars 0..n-1 into a fresh root, one by one. */
  ghost function BuildTree(stars: seq<Star>, w: real, n: nat): Node
    requires Separated(stars, w) && n <= |stars|
    decreases n, 1
  {
    if n == 0 then InitRoot(Universe(stars, w))
    else BuildStep(stars, w, n - 1)
  }

  ghost function BuildStep(stars: seq<Star>, w: real, k: nat): Node
    requires Separated(stars, w) && k < |stars|
    decreases k + 1, 0
  {
    InsertAt(BuildTree(stars, w, k), k, stars, w, Gap(stars, w, k, k))
  }

  /**
   * r is what the first n insertions build: a shaped placeholder tree over the universe's
   * square whose leaves hold stars 0..n-1, each once.
   */
  ghost predicate Built(r: Node, stars: seq<Star>, w: real, n: nat)
  {
    && r.Dummy? && r.sector == RootSector(w) && r.star == Placeholder(r.sector)
    && Shaped(r, stars, w) && Placeholders(r)
    && multiset(Leaves(r)) == multiset(Range(n))
  }

  /** Every insertion of BuildTree found its precondition met, so the result is Built. */
  lemma {:induction false} BuildTreeShaped(stars: seq<Star>, w: real, n: nat)
    requires Separated(stars, w) && n <= |stars|
    ensures Built(BuildTree(stars, w, n), stars, w, n)
    decreases n
  {
    if n == 0 {
      InitRootShaped(Universe(stars, w));
    } else {
      BuildTreeShaped(stars, w, n - 1);
      BuiltStep(stars, w, n - 1);
    }
  }

  lemma {:induction false} BuiltStep(stars: seq<Star>, w: real, j: nat)
    requires Separated(stars, w) && j < |stars|
    requires Built(BuildTree(stars, w, j), stars, w, j)
    ensures Built(BuildTree(stars, w, j + 1), stars, w, j + 1)
  {
    var t := BuildTree(stars, w, j);
    InsertReady(stars, w, j, t);
    assert BuildTree(stars, w, j + 1) == Insert(t, j, stars, w, Gap(stars, w, j, j));
    assert multiset(Range(j + 1)) == multiset(Range(j)) + multiset{j};
  }

  /** A fresh root is a shaped placeholder tree with no leaves. */
  lemma InitRootShaped(u: Universe)
    requires u.width > 0.0
    ensures Shaped(InitRoot(u), u.stars, u.width) && Placeholders(InitRoot(u))
  {
    var r := InitRoot(u);
    forall i | 0 <= i < 4
      ensures SlotOk(r.sector, i, r.children[i], u.stars, u.width)
    {
      assert r.children[i] == Nil;
    }
  }

  /** The tree holding stars 0..j-1 is ready for star j. */
  lemma {:induction false} InsertReady(stars: seq<Star>, w: real, j: nat, t: Node)
    requires Separated(stars, w) && j < |stars| && Built(t, stars, w, j)
    ensures CanInsert(t, j, stars, w, Gap(stars, w, j, j))
  {
    ClampFixesExactlyTheUniverse(stars[j], Universe(stars, w));
    var g := Gap(stars, w, j, j);
    forall k | k in Leaves(t)
      ensures k < |stars| && Cheb(Clamp(stars[j].position, w), Clamp(stars[k].position, w)) >= g
    {
      assert k in multiset(Range(j));
      assert k in Range(j);
    }
  }

  /** Each star of the universe sits in exactly one leaf, and there are as many leaves as stars. */
  lemma {:induction false} EveryStarInOneLeaf(stars: seq<Star>, w: real)
    requires Separated(stars, w)
    ensures |Leaves(BuildTree(stars, w, |stars|))| == |stars|
    ensures forall k: nat :: k < |stars| ==> multiset(Leaves(BuildTree(stars, w, |stars|)))[k] == 1
  {
    BuildTreeShaped(stars, w, |stars|);
    var leaves: seq<nat> := Leaves(BuildTree(stars, w, |stars|));
    assert |multiset(leaves)| == |multiset(Range(|stars|))|;
    forall k: nat | k < |stars|
      ensures multiset(leaves)[k] == 1
    {
      RangeCount(|stars|, k);
    }
  }

  lemma {:induction false} RangeCount(n: nat, k: nat)
    requires k < n
    ensures multiset(Range(n))[k] == 1
    decreases n
  {
    var r := Range(n - 1);
    var last: nat := n - 1;
    assert Range(n) == r + [last];
    assert multiset(Range(n)) == multiset(r) + multiset{last};
    if k < last {
      RangeCount(n - 1, k);
    } else {
      assert forall i :: 0 <= i < |r| ==> r[i] != k;
      assert k !in r;
    }
  }

  /** The node reached from n by following the route of point p through the dummies. */
  function Route(n: Node, p: Vec): Node
    decreases n
  {
    match n
    case Dummy(_, sec, cs) =>
      var i := WhichSubQuad(p, sec);
      if i < |cs| then Route(cs[i], p) else n
    case _ => n
  }

  /**
   * Every star of a shaped tree is found again by the routing that inserted it: following
   * whichSubQuad from the root with the star's position ends at the star's own leaf.
   */
  lemma {:induction false} RouteFindsStar(n: Node, stars: seq<Star>, w: real, k: nat)
    requires Shaped(n, stars, w) && k in Leaves(n) && k < |stars|
    ensures Route(n, stars[k].position).Leaf? && Route(n, stars[k].position).index == k
    decreases n
  {
    match n
    case Leaf(_, _) =>
    case Dummy(_, sec, cs) =>
      var i := LeafInSomeSlot(cs, k);
      assert SlotOk(sec, i, cs[i], stars, w);
      RouteFindsStar(cs[i], stars, w, k);
  }

  /** One step of the walked path: an ancestor and the slot the descent took in it. */
  datatype Frame = Frame(node: Node, slot: int)

  /** Node p with slot q replaced by c. */
  function Fill(p: Node, q: int, c: Node): Node
  {
    if p.Dummy? && 0 <= q < |p.children| then p.(children := p.children[q := c]) else p
  }

  /** Puts n back in place below the walked path, rebuilding each ancestor up to the root. */
  function Plug(path: seq<Frame>, n: Node): Node
    decreases |path|
  {
    if path == [] then n
    else
      var f := path[|path| - 1];
      Plug(path[..|path| - 1], Fill(f.node, f.slot, n))
  }

  /**
   * Builds the quad tree of a universe: a root over the whole square, then each star in
   * turn inserted by InsertStar. The result is the fold of Insert over the stars in order,
   * whose shape BuildTree states and EveryStarInOneLeaf and RouteFindsStar complete.
   */
  method BuildQuadTree(u: Universe) returns (root: Node)
    requires Separated(u.stars, u.width)
    ensures root == BuildTree(u.stars, u.width, |u.stars|)
  {
    root := InitRoot(u);
    BuildTreeEmpty(u);
    for i := 0 to |u.stars|
      invariant root == BuildTree(u.stars, u.width, i)
    {
      root := InsertStar(root, i, u);
    }
  }

  lemma BuildTreeEmpty(u: Universe)
    requires Separated(u.stars, u.width)
    ensures BuildTree(u.stars, u.width, 0) == InitRoot(u)
  {
    assert Universe(u.stars, u.width) == u;
  }

  /** The tree for stars 0..i is the tree for stars 0..i-1 with star i inserted. */
  lemma BuildTreeStep(stars: seq<Star>, w: real, i: nat)
    requires Separated(stars, w) && i < |stars|
    ensures CanInsert(BuildTree(stars, w, i), i, stars, w, Gap(stars, w, i, i))
    ensures BuildTree(stars, w, i + 1) == InsertAt(BuildTree(stars, w, i), i, stars, w, Gap(stars, w, i, i))
  {
    BuildTreeShaped(stars, w, i);
    InsertReady(stars, w, i, BuildTree(stars, w, i));
  }

  /**
   * The descent loop for star i: from the root along the star's route, an occupied slot
   * holding a dummy is entered; one holding a star is replaced by a new dummy under which
   * that star is hung back, and the descent continues in it; at the first empty slot the
   * star is placed as a leaf covering that slot's sub-square.
   */
  method InsertStar(root: Node, i: nat, u: Universe) returns (r: Node)
    requires Separated(u.stars, u.width) && i < |u.stars|
    requires root == BuildTree(u.stars, u.width, i)
    ensures r == BuildTree(u.stars, u.width, i + 1)
  {
    BuildTreeStep(u.stars, u.width, i);
    ghost var delta := Gap(u.stars, u.width, i, i);
    var star := u.stars[i];
    var parent := root;
    var path: seq<Frame> := [];
    var q := WhichSubQuad(star.position, parent.sector);
    var next := parent.children[q];
    while next != Nil
      invariant CanInsert(parent, i, u.stars, u.width, delta)
      invariant q == WhichSubQuad(star.position, parent.sector) && next == parent.children[q]
      invariant Plug(path, InsertAt(parent, i, u.stars, u.width, delta)) == InsertAt(root, i, u.stars, u.width, delta)
      decreases parent.sector.width / delta
    {
      if next.Dummy? {
        DescendIntoDummy(path, parent, i, u.stars, u.width, delta);
        path := path + [Frame(parent, q)];
        parent := next;
      } else {
        DescendIntoSplit(path, parent, i, u.stars, u.width, delta);
        var newDummy := NewDummy(parent.star, parent.sector, q);
        parent := parent.(children := parent.children[q := newDummy]);
        var nq := WhichSubQuad(u.stars[next.index].position, newDummy.sector);
        newDummy := newDummy.(children := newDummy.children[nq := next]);
        path := path + [Frame(parent, q)];
        parent := newDummy;
      }
      q := WhichSubQuad(star.position, parent.sector);
      next := parent.children[q];
    }
    PlaceLeaf(path, parent, i, u.stars, u.width, delta);
    parent := parent.(children := parent.children[q := Leaf(i, FindNewQuad(parent.sector, q))]);
    r := Plug(path, parent);
  }

  /** Insert where it is defined (a total wrapper, so that loop invariants need no precondition). */
  ghost function InsertAt(n: Node, j: nat, stars: seq<Star>, w: real, delta: real): Node
  {
    if CanInsert(n, j, stars, w, delta) then Insert(n, j, stars, w, delta) else n
  }

  /** Entering the dummy in j's slot: the path grows by that slot, and the result rebuilt is the same. */
  lemma {:induction false} DescendIntoDummy(path: seq<Frame>, n: Node, j: nat, stars: seq<Star>, w: real, delta: real)
    requires CanInsert(n, j, stars, w, delta)
    requires n.children[WhichSubQuad(stars[j].position, n.sector)].Dummy?
    ensures var q := WhichSubQuad(stars[j].position, n.sector);
            var next := n.children[q];
            && CanInsert(next, j, stars, w, delta)
            && 0.0 <= n.sector.width / delta
            && next.sector.width / delta <= n.sector.width / delta - 1.0
            && Plug(path + [Frame(n, q)], InsertAt(next, j, stars, w, delta)) == Plug(path, InsertAt(n, j, stars, w, delta))
  {
    var q := WhichSubQuad(stars[j].position, n.sector);
    InsertIntoDummy(n, j, stars, w, delta);
    PlugStep(path, Frame(n, q), InsertAt(n.children[q], j, stars, w, delta));
  }

  /**
   * Splitting the leaf in j's slot: the slot first receives the bare new dummy, the leaf is
   * hung below the dummy, and the descent continues there; the result rebuilt is the same.
   */
  lemma {:induction false} DescendIntoSplit(path: seq<Frame>, n: Node, j: nat, stars: seq<Star>, w: real, delta: real)
    requires CanInsert(n, j, stars, w, delta)
    requires n.children[WhichSubQuad(stars[j].position, n.sector)].Leaf?
    ensures n.children[WhichSubQuad(stars[j].position, n.sector)].index < |stars|
    ensures var q := WhichSubQuad(stars[j].position, n.sector);
            var next := n.children[q];
            var bare := NewDummy(n.star, n.sector, q);
            var d := bare.(children := bare.children[WhichSubQuad(stars[next.index].position, bare.sector) := next]);
            var n' := n.(children := n.children[q := bare]);
            && CanInsert(d, j, stars, w, delta)
            && 0.0 <= n.sector.width / delta
            && d.sector.width / delta <= n.sector.width / delta - 1.0
            && Plug(path + [Frame(n', q)], InsertAt(d, j, stars, w, delta)) == Plug(path, InsertAt(n, j, stars, w, delta))
  {
    var q := WhichSubQuad(stars[j].position, n.sector);
    var next := n.children[q];
    InsertIntoLeaf(n, j, stars, w, delta);
    var d := SplitLeaf(n, q, next, stars);
    var n' := n.(children := n.children[q := NewDummy(n.star, n.sector, q)]);
    PlugStep(path, Frame(n', q), InsertAt(d, j, stars, w, delta));
    assert Fill(n', q, InsertAt(d, j, stars, w, delta)) == Fill(n, q, InsertAt(d, j, stars, w, delta));
  }

  /** Placing j as a leaf in its empty slot completes the insertion. */
  lemma {:induction false} PlaceLeaf(path: seq<Frame>, n: Node, j: nat, stars: seq<Star>, w: real, delta: real)
    requires CanInsert(n, j, stars, w, delta)
    requires n.children[WhichSubQuad(stars[j].position, n.sector)] == Nil
    ensures var q := WhichSubQuad(stars[j].position, n.sector);
            Plug(path, n.(children := n.children[q := Leaf(j, FindNewQuad(n.sector, q))]))
              == Plug(path, InsertAt(n, j, stars, w, delta))
  {
    InsertIntoEmpty(n, j, stars, w, delta);
  }

  /** One level of Insert into an empty slot: the leaf for j fills it. */
  lemma {:induction false} InsertIntoEmpty(n: Node, j: nat, stars: seq<Star>, w: real, delta: real)
    requires CanInsert(n, j, stars, w, delta)
    requires n.children[WhichSubQuad(stars[j].position, n.sector)] == Nil
    ensures var q := WhichSubQuad(stars[j].position, n.sector);
            InsertAt(n, j, stars, w, delta) == Fill(n, q, Leaf(j, FindNewQuad(n.sector, q)))
  {
    assert InsertAt(n, j, stars, w, delta) == Insert(n, j, stars, w, delta);
  }

  /** One level of Insert into a slot holding a dummy: the insertion continues in that dummy. */
  lemma {:induction false} InsertIntoDummy(n: Node, j: nat, stars: seq<Star>, w: real, delta: real)
    requires CanInsert(n, j, stars, w, delta)
    requires n.children[WhichSubQuad(stars[j].position, n.sector)].Dummy?
    ensures var q := WhichSubQuad(stars[j].position, n.sector);
            var next := n.children[q];
            && CanInsert(next, j, stars, w, delta)
            && 0.0 <= n.sector.width / delta
            && next.sector.width / delta <= n.sector.width / delta - 1.0
            && InsertAt(n, j, stars, w, delta) == Fill(n, q, InsertAt(next, j, stars, w, delta))
  {
    DescentReady(n, j, stars, w, delta);
    assert InsertAt(n, j, stars, w, delta) == InsertBelow(n, j, stars, w, delta);
  }

  /** One level of Insert into a slot holding a leaf: the insertion continues in the split leaf. */
  lemma {:induction false} InsertIntoLeaf(n: Node, j: nat, stars: seq<Star>, w: real, delta: real)
    requires CanInsert(n, j, stars, w, delta)
    requires n.children[WhichSubQuad(stars[j].position, n.sector)].Leaf?
    ensures var q := WhichSubQuad(stars[j].position, n.sector);
            var next := n.children[q];
            && next.index < |stars|
            && CanInsert(SplitLeaf(n, q, next, stars), j, stars, w, delta)
            && 0.0 <= n.sector.width / delta
            && SplitLeaf(n, q, next, stars).sector.width / delta <= n.sector.width / delta - 1.0
            && InsertAt(n, j, stars, w, delta) == Fill(n, q, InsertAt(SplitLeaf(n, q, next, stars), j, stars, w, delta))
  {
    var q := WhichSubQuad(stars[j].position, n.sector);
    var next := n.children[q];
    assert SlotOk(n.sector, q, next, stars, w);
    SlotSideAtLeastDelta(n, j, stars, w, delta, next.index);
    HalfMeasure(n.sector.width, delta);
    SplitLeafReady(n, j, stars, w, delta);
    assert InsertAt(n, j, stars, w, delta) == InsertBelow(n, j, stars, w, delta);
  }

  /** Pushing a frame onto the path and descending keeps what Plug rebuilds. */
  lemma PlugStep(path: seq<Frame>, f: Frame, sub: Node)
    ensures Plug(path + [f], sub) == Plug(path, Fill(f.node, f.slot, sub))
  {
    assert (path + [f])[..|path|] == path;
  }
}
