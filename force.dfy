/**
 * The force pass of engine.go (ComputeNetForce and Theta): the net force on one star is
 * gathered by a breadth-first walk of the aggregated tree, which opens a node into its
 * children when the node is close compared to its size and otherwise takes the node as a
 * single body.
 */
module Force {
  import opened Physics
  import opened Quadrants
  import opened QuadTree
  import opened ClusterMass

  /**
   * Whether a node of side width at distance d is opened (the test Theta(n, star) > theta).
   * Theta is the quotient width / d in floating point: at d == 0 it is +Inf for a positive
   * side, which exceeds every theta, and NaN for side zero, which exceeds none. At a positive
   * distance the node is opened exactly when its side exceeds theta times the distance.
   */
  predicate Opens(width: real, d: real, theta: real): (b: bool)
    ensures d > 0.0 ==> (b <==> width > theta * d)
  {
    if d == 0.0 then width > 0.0 else width / d > theta
  }

  /** Every leaf of n names one of count stars, and every sector in n has positive side. */
  predicate Sound(n: Node, count: nat)
    decreases n, 1
  {
    match n
    case Nil => true
    case Leaf(k, sec) => k < count && sec.width > 0.0
    case Dummy(_, sec, cs) => sec.width > 0.0 && SoundSlots(cs, count)
  }

  predicate SoundSlots(cs: seq<Node>, count: nat)
    decreases cs, 0
  {
    forall i :: 0 <= i < |cs| ==> Sound(cs[i], count)
  }

  /** The star a node stands for: a leaf's star of the universe, or a dummy's own star. */
  function NodeStar(n: Node, stars: seq<Star>): Star
    requires !n.Nil? && (n.Leaf? ==> n.index < |stars|)
  {
    if n.Leaf? then stars[n.index] else n.star
  }

  /**
   * The force node n exerts on star s of stars, as the walk computes it: a leaf of another
   * star pulls directly; any other node is opened when Opens holds (the children's forces
   * are summed; a leaf has none) and is otherwise taken as a single body. The star s's own
   * leaf is therefore skipped whenever its side is positive.
   */
  function Contribution(law: Gravity, n: Node, stars: seq<Star>, s: nat, theta: real): Vec
    requires s < |stars| && Sound(n, |stars|)
    decreases n, 1
  {
    match n
    case Nil => Zero
    case Leaf(k, sec) =>
      if k != s then ComputeGravityForce(law, stars[s], stars[k])
      else if Opens(sec.width, Dist(law, stars[k], stars[s]), theta) then Zero
      else ComputeGravityForce(law, stars[s], stars[k])
    case Dummy(st, sec, cs) =>
      if Opens(sec.width, Dist(law, st, stars[s]), theta) then SumContrib(law, cs, stars, s, theta)
      else ComputeGravityForce(law, stars[s], st)
  }

  /**
   * r is the vector sum of u and v, that is r == Add(u, v), stated by components so that
   * sums of zero vectors do not make the solver unfold Add on its own results.
   */
  predicate IsSum(r: Vec, u: Vec, v: Vec)
  {
    r.x == u.x + v.x && r.y == u.y + v.y
  }

  /** The summed contributions of a sequence of nodes (a queue, or a node's slots). */
  function SumContrib(law: Gravity, q: seq<Node>, stars: seq<Star>, s: nat, theta: real): Vec
    requires s < |stars| && SoundSlots(q, |stars|)
    decreases q, 0
  {
    if q == [] then Zero
    else
      var head := Contribution(law, q[0], stars, s, theta);
      var rest := SumContrib(law, q[1..], stars, s, theta);
      Vec(head.x + rest.x, head.y + rest.y)
  }

  /** The number of nodes in n, empty slots not counted. */
  function Size(n: Node): nat
    decreases n, 1
  {
    match n
    case Nil => 0
    case Leaf(_, _) => 1
    case Dummy(_, _, cs) => 1 + Weight(cs)
  }

  function Weight(q: seq<Node>): nat
    decreases q, 0
  {
    if q == [] then 0 else Size(q[0]) + Weight(q[1..])
  }

  /** The queue holds no empty slot. */
  predicate Occupied(q: seq<Node>)
  {
    forall i :: 0 <= i < |q| ==> !q[i].Nil?
  }

  /**
   * ComputeNetForce: the queue starts with the root; the head is a leaf of another star
   * (its pull is added), or is tested with Opens and either has its non-empty children
   * appended or its pull added as a single body; then the head is dropped. The result is the
   * root's contribution, and the walk ends because the queue's node count drops each turn.
   */
  method ComputeNetForce(law: Gravity, root: Node, stars: seq<Star>, s: nat, theta: real)
    returns (netForce: Vec)
    requires s < |stars| && !root.Nil? && Sound(root, |stars|)
    ensures netForce == Contribution(law, root, stars, s, theta)
  {
    netForce := Zero;
    var queue := [root];
    assert queue[1..] == [];
    while queue != []
      invariant SoundSlots(queue, |stars|) && Occupied(queue)
      invariant IsSum(Contribution(law, root, stars, s, theta), netForce, SumContrib(law, queue, stars, s, theta))
      decreases Weight(queue)
    {
      var current := queue[0];
      ghost var q0 := queue;
      if current.Leaf? && current.index != s {
        TakenHead(law, queue, stars, s, theta);
        var f := ComputeGravityForce(law, stars[s], stars[current.index]);
        netForce := Add(netForce, f);
      } else {
        assert Sound(current, |stars|);
        var body := NodeStar(current, stars);
        if Opens(current.sector.width, Dist(law, body, stars[s]), theta) {
          var cs := if current.Dummy? then current.children else [];
          queue := EnqueueChildren(queue, cs);
          OpenedHead(law, q0, cs, stars, s, theta);
        } else {
          TakenHead(law, queue, stars, s, theta);
          var f := ComputeGravityForce(law, stars[s], body);
          netForce := Add(netForce, f);
        }
      }
      queue := queue[1..];
    }
  }

  /** The inner loop of ComputeNetForce: the non-empty slots of cs are appended to the queue, in order. */
  method EnqueueChildren(queue: seq<Node>, cs: seq<Node>) returns (r: seq<Node>)
    ensures r == queue + RealChildren(cs)
  {
    r := queue;
    for j := 0 to |cs|
      invariant r == queue + RealChildren(cs[..j])
    {
      assert cs[..j + 1][..j] == cs[..j];
      if cs[j] != Nil {
        r := r + [cs[j]];
      }
    }
    assert cs[..|cs|] == cs;
  }

  /**
   * Taking the head of the queue as a single body (a leaf of another star, or a node that
   * is not opened): its contribution is its pull, and dropping it lowers the queue's weight.
   */
  lemma TakenHead(law: Gravity, q: seq<Node>, stars: seq<Star>, s: nat, theta: real)
    requires q != [] && s < |stars| && SoundSlots(q, |stars|) && Occupied(q)
    requires var h := q[0];
             (h.Leaf? && h.index != s) ||
             !Opens(h.sector.width, Dist(law, NodeStar(h, stars), stars[s]), theta)
    ensures Sound(q[0], |stars|) && SoundSlots(q[1..], |stars|) && Occupied(q[1..])
    ensures Weight(q[1..]) < Weight(q)
    ensures IsSum(SumContrib(law, q, stars, s, theta),
                  ComputeGravityForce(law, stars[s], NodeStar(q[0], stars)), SumContrib(law, q[1..], stars, s, theta))
  {
    QueueHead(law, q, stars, s, theta);
    SingleBody(law, q[0], stars, s, theta);
  }

  lemma SingleBody(law: Gravity, h: Node, stars: seq<Star>, s: nat, theta: real)
    requires !h.Nil? && s < |stars| && Sound(h, |stars|)
    requires (h.Leaf? && h.index != s) || !Opens(h.sector.width, Dist(law, NodeStar(h, stars), stars[s]), theta)
    ensures Size(h) >= 1
    ensures Contribution(law, h, stars, s, theta) == ComputeGravityForce(law, stars[s], NodeStar(h, stars))
  {
  }

  /** The head of a non-empty queue splits off its sum, and the queue's weight counts it. */
  lemma QueueHead(law: Gravity, q: seq<Node>, stars: seq<Star>, s: nat, theta: real)
    requires q != [] && s < |stars| && SoundSlots(q, |stars|)
    ensures Sound(q[0], |stars|) && SoundSlots(q[1..], |stars|)
    ensures IsSum(SumContrib(law, q, stars, s, theta),
                  Contribution(law, q[0], stars, s, theta), SumContrib(law, q[1..], stars, s, theta))
    ensures Weight(q) == Size(q[0]) + Weight(q[1..])
  {
  }

  /**
   * Opening the head of the queue: appending its non-empty children and dropping it keeps
   * the queue's total contribution and lowers its weight.
   */
  lemma {:induction false} OpenedHead(law: Gravity, q: seq<Node>, cs: seq<Node>, stars: seq<Star>, s: nat, theta: real)
    requires q != [] && s < |stars| && SoundSlots(q, |stars|) && Occupied(q)
    requires q[0].Leaf? ==> cs == [] && q[0].index == s
    requires q[0].Dummy? ==> cs == q[0].children
    requires Opens(q[0].sector.width, Dist(law, NodeStar(q[0], stars), stars[s]), theta)
    ensures var r := (q + RealChildren(cs))[1..];
            && SoundSlots(r, |stars|) && Occupied(r)
            && SumContrib(law, r, stars, s, theta) == SumContrib(law, q, stars, s, theta)
            && Weight(r) < Weight(q)
  {
    var h := q[0];
    var rc := RealChildren(cs);
    assert Sound(h, |stars|);
    assert SoundSlots(cs, |stars|);
    RealChildrenSound(cs, |stars|);
    var r := (q + rc)[1..];
    assert r == q[1..] + rc;
    SumContribAppend(law, q[1..], rc, stars, s, theta);
    SumContribRealChildren(law, cs, stars, s, theta);
    WeightAppend(q[1..], rc);
    WeightRealChildren(cs);
    assert Contribution(law, h, stars, s, theta) == SumContrib(law, cs, stars, s, theta);
  }

  /** The non-empty children of sound slots are sound and occupied. */
  lemma RealChildrenSound(cs: seq<Node>, count: nat)
    requires SoundSlots(cs, count)
    ensures SoundSlots(RealChildren(cs), count) && Occupied(RealChildren(cs))
  {
    RealChildrenMembers(cs);
    var rc := RealChildren(cs);
    forall i | 0 <= i < |rc|
      ensures Sound(rc[i], count) && !rc[i].Nil?
    {
      assert rc[i] in rc;
      var j :| 0 <= j < |cs| && cs[j] == rc[i];
    }
  }

  lemma {:induction false} SumContribAppend(law: Gravity, a: seq<Node>, b: seq<Node>, stars: seq<Star>, s: nat, theta: real)
    requires s < |stars| && SoundSlots(a, |stars|) && SoundSlots(b, |stars|)
    ensures SoundSlots(a + b, |stars|)
    ensures IsSum(SumContrib(law, a + b, stars, s, theta), SumContrib(law, a, stars, s, theta), SumContrib(law, b, stars, s, theta))
    decreases |a|
  {
    assert SoundSlots(a + b, |stars|);
    if a == [] {
      assert a + b == b;
    } else {
      assert (a + b)[0] == a[0] && (a + b)[1..] == a[1..] + b;
      SumContribAppend(law, a[1..], b, stars, s, theta);
    }
  }

  /** Skipping empty slots does not change the summed contribution. */
  lemma {:induction false} SumContribRealChildren(law: Gravity, cs: seq<Node>, stars: seq<Star>, s: nat, theta: real)
    requires s < |stars| && SoundSlots(cs, |stars|)
    ensures SoundSlots(RealChildren(cs), |stars|)
    ensures SumContrib(law, RealChildren(cs), stars, s, theta) == SumContrib(law, cs, stars, s, theta)
    decreases |cs|
  {
    RealChildrenSound(cs, |stars|);
    if cs != [] {
      var init, c := cs[..|cs| - 1], cs[|cs| - 1];
      assert cs == init + [c];
      assert SoundSlots(init, |stars|) && SoundSlots([c], |stars|);
      SumContribRealChildren(law, init, stars, s, theta);
      SumContribAppend(law, init, [c], stars, s, theta);
      SumContribSingle(law, c, stars, s, theta);
      var ri := RealChildren(init);
      RealChildrenSound(init, |stars|);
      if !c.Nil? {
        SumContribAppend(law, ri, [c], stars, s, theta);
      }
    }
  }

  lemma SumContribSingle(law: Gravity, c: Node, stars: seq<Star>, s: nat, theta: real)
    requires s < |stars| && Sound(c, |stars|)
    ensures SoundSlots([c], |stars|)
    ensures SumContrib(law, [c], stars, s, theta) == Contribution(law, c, stars, s, theta)
    ensures c.Nil? ==> Contribution(law, c, stars, s, theta) == Zero
  {
    assert [c][0] == c && [c][1..] == [];
    assert SoundSlots([c], |stars|);
    assert SumContrib(law, [], stars, s, theta) == Zero;
  }

  lemma {:induction false} WeightAppend(a: seq<Node>, b: seq<Node>)
    ensures Weight(a + b) == Weight(a) + Weight(b)
    decreases |a|
  {
    if a == [] {
      assert a + b == b;
    } else {
      assert (a + b)[0] == a[0] && (a + b)[1..] == a[1..] + b;
      WeightAppend(a[1..], b);
    }
  }

  /** Empty slots weigh nothing. */
  lemma {:induction false} WeightRealChildren(cs: seq<Node>)
    ensures Weight(RealChildren(cs)) == Weight(cs)
    decreases |cs|
  {
    if cs != [] {
      var init, c := cs[..|cs| - 1], cs[|cs| - 1];
      assert cs == init + [c];
      WeightRealChildren(init);
      WeightAppend(init, [c]);
      if !c.Nil? {
        WeightAppend(RealChildren(init), [c]);
      }
    }
  }

  /** A star's own leaf exerts no force on it: its distance is zero, so the leaf is opened into nothing. */
  lemma SelfLeafIsSkipped(law: Gravity, stars: seq<Star>, s: nat, sec: Quadrant, theta: real)
    requires ValidLaw(law) && s < |stars| && sec.width > 0.0
    ensures Contribution(law, Leaf(s, sec), stars, s, theta) == Zero
  {
    DistIsMetric(law, stars[s], stars[s]);
  }

  /** A dummy that is not opened acts as a single body: its aggregated star's pull, and nothing else. */
  lemma ClosedNodeIsOneBody(law: Gravity, n: Node, stars: seq<Star>, s: nat, theta: real)
    requires n.Dummy? && s < |stars| && Sound(n, |stars|)
    requires !Opens(n.sector.width, Dist(law, n.star, stars[s]), theta)
    ensures Contribution(law, n, stars, s, theta) == ComputeGravityForce(law, stars[s], n.star)
  {
  }

  /** The leaf indices ks all name one of count stars. */
  predicate InBounds(ks: seq<nat>, count: nat)
  {
    forall i :: 0 <= i < |ks| ==> ks[i] < count
  }

  /** The pull of star k on star s, nothing for the star itself. */
  function Pairwise(law: Gravity, stars: seq<Star>, s: nat, k: nat): Vec
    requires s < |stars| && k < |stars|
  {
    if k == s then Zero else ComputeGravityForce(law, stars[s], stars[k])
  }

  /** The direct sum of the pulls of the stars ks on star s: the reference the tree approximates. */
  function DirectSum(law: Gravity, stars: seq<Star>, s: nat, ks: seq<nat>): Vec
    requires s < |stars| && InBounds(ks, |stars|)
    decreases |ks|
  {
    if ks == [] then Zero
    else
      var head := Pairwise(law, stars, s, ks[0]);
      var rest := DirectSum(law, stars, s, ks[1..]);
      Vec(head.x + rest.x, head.y + rest.y)
  }

  lemma {:induction false} DirectSumAppend(law: Gravity, stars: seq<Star>, s: nat, a: seq<nat>, b: seq<nat>)
    requires s < |stars| && InBounds(a, |stars|) && InBounds(b, |stars|)
    ensures InBounds(a + b, |stars|)
    ensures IsSum(DirectSum(law, stars, s, a + b), DirectSum(law, stars, s, a), DirectSum(law, stars, s, b))
    decreases |a|
  {
    assert InBounds(a + b, |stars|);
    if a == [] {
      assert a + b == b;
    } else {
      assert (a + b)[0] == a[0] && (a + b)[1..] == a[1..] + b;
      DirectSumAppend(law, stars, s, a[1..], b);
    }
  }

  /** The direct sum does not depend on the order of the stars summed. */
  lemma {:induction false} DirectSumPermutation(law: Gravity, stars: seq<Star>, s: nat, a: seq<nat>, b: seq<nat>)
    requires s < |stars| && InBounds(a, |stars|) && multiset(a) == multiset(b)
    ensures InBounds(b, |stars|)
    ensures DirectSum(law, stars, s, a) == DirectSum(law, stars, s, b)
    decreases |a|
  {
    PermutedInBounds(a, b, |stars|);
    if a != [] {
      var left, right := TakeOut(a, b, |stars|);
      DirectSumPermutation(law, stars, s, a[1..], left + right);
      DirectSumAppend(law, stars, s, left, right);
      DirectSumMiddle(law, stars, s, left, a[0], right);
      var px, dt := Pairwise(law, stars, s, a[0]), DirectSum(law, stars, s, a[1..]);
      assert DirectSum(law, stars, s, a) == Vec(px.x + dt.x, px.y + dt.y);
    } else {
      assert |b| == |multiset(b)| == 0;
    }
  }

  /** The first element of a, found in its permutation b, splits b into two parts that permute the rest of a. */
  lemma TakeOut(a: seq<nat>, b: seq<nat>, count: nat) returns (left: seq<nat>, right: seq<nat>)
    requires a != [] && InBounds(a, count) && multiset(a) == multiset(b)
    ensures b == left + [a[0]] + right
    ensures multiset(left + right) == multiset(a[1..])
    ensures InBounds(a[1..], count) && InBounds(left, count) && InBounds(right, count)
  {
    PermutedInBounds(a, b, count);
    assert a[0] in multiset(b);
    var i :| 0 <= i < |b| && b[i] == a[0];
    left, right := b[..i], b[i + 1..];
    RemoveOne(a, b, i);
    assert b == left + [a[0]] + right;
    assert InBounds(a[1..], count);
    assert InBounds(left, count) && InBounds(right, count);
  }

  /** Summing left, then star k, then right, adds the three parts by components. */
  lemma DirectSumMiddle(law: Gravity, stars: seq<Star>, s: nat, left: seq<nat>, k: nat, right: seq<nat>)
    requires s < |stars| && k < |stars| && InBounds(left, |stars|) && InBounds(right, |stars|)
    ensures InBounds(left + [k] + right, |stars|)
    ensures var d, dl, pk, dr := DirectSum(law, stars, s, left + [k] + right), DirectSum(law, stars, s, left),
                                 Pairwise(law, stars, s, k), DirectSum(law, stars, s, right);
            d.x == dl.x + pk.x + dr.x && d.y == dl.y + pk.y + dr.y
  {
    DirectSumOne(law, stars, s, k);
    DirectSumAppend(law, stars, s, left, [k]);
    DirectSumAppend(law, stars, s, left + [k], right);
  }

  lemma PermutedInBounds(a: seq<nat>, b: seq<nat>, count: nat)
    requires InBounds(a, count) && multiset(a) == multiset(b)
    ensures InBounds(b, count)
  {
    forall j | 0 <= j < |b|
      ensures b[j] < count
    {
      assert b[j] in multiset(a);
      var i :| 0 <= i < |a| && a[i] == b[j];
    }
  }

  /**
   * With theta <= 0 every node is opened, so the walk degenerates to the direct sum over the
   * stars below n: the tree approximation is exact.
   */
  lemma {:induction false} OpenedTreeIsDirect(law: Gravity, n: Node, stars: seq<Star>, s: nat, theta: real)
    requires ValidLaw(law) && theta <= 0.0 && s < |stars| && Sound(n, |stars|)
    ensures InBounds(Leaves(n), |stars|)
    ensures Contribution(law, n, stars, s, theta) == DirectSum(law, stars, s, Leaves(n))
    decreases n, 1
  {
    if n.Leaf? {
      OpenedLeafIsDirect(law, n, stars, s, theta);
    } else if n.Dummy? {
      DistIsMetric(law, n.star, stars[s]);
      AlwaysOpens(n.sector.width, Dist(law, n.star, stars[s]), theta);
      OpenedSlotsAreDirect(law, n.children, stars, s, theta);
      assert Leaves(n) == ChildLeaves(n.children);
    }
  }

  lemma OpenedLeafIsDirect(law: Gravity, n: Node, stars: seq<Star>, s: nat, theta: real)
    requires ValidLaw(law) && s < |stars| && n.Leaf? && Sound(n, |stars|)
    ensures InBounds(Leaves(n), |stars|)
    ensures Contribution(law, n, stars, s, theta) == DirectSum(law, stars, s, Leaves(n))
  {
    var k := n.index;
    assert Leaves(n) == [k];
    DirectSumOne(law, stars, s, k);
    if k == s {
      SelfLeafIsSkipped(law, stars, s, n.sector, theta);
    }
  }

  lemma DirectSumOne(law: Gravity, stars: seq<Star>, s: nat, k: nat)
    requires s < |stars| && k < |stars|
    ensures InBounds([k], |stars|)
    ensures DirectSum(law, stars, s, [k]) == Pairwise(law, stars, s, k)
  {
    assert [k][0] == k && [k][1..] == [];
    assert DirectSum(law, stars, s, []) == Zero;
  }

  /** A node of positive side is opened at any distance when theta is not positive. */
  lemma AlwaysOpens(width: real, d: real, theta: real)
    requires width > 0.0 && d >= 0.0 && theta <= 0.0
    ensures Opens(width, d, theta)
  {
    if d > 0.0 {
      assert width / d > 0.0;
    }
  }

  lemma {:induction false} OpenedSlotsAreDirect(law: Gravity, cs: seq<Node>, stars: seq<Star>, s: nat, theta: real)
    requires ValidLaw(law) && theta <= 0.0 && s < |stars| && SoundSlots(cs, |stars|)
    ensures InBounds(ChildLeaves(cs), |stars|)
    ensures SumContrib(law, cs, stars, s, theta) == DirectSum(law, stars, s, ChildLeaves(cs))
    decreases cs, 0
  {
    if cs != [] {
      var h, tail := cs[0], cs[1..];
      assert ChildLeaves(cs) == Leaves(h) + ChildLeaves(tail);
      OpenedTreeIsDirect(law, h, stars, s, theta);
      OpenedSlotsAreDirect(law, tail, stars, s, theta);
      DirectSumAppend(law, stars, s, Leaves(h), ChildLeaves(tail));
      var c, rest := Contribution(law, h, stars, s, theta), SumContrib(law, tail, stars, s, theta);
      assert SumContrib(law, cs, stars, s, theta) == Vec(c.x + rest.x, c.y + rest.y);
    }
  }

  /** The shape every built tree has implies soundness. */
  lemma {:induction false} ShapedIsSound(n: Node, stars: seq<Star>, w: real)
    requires Shaped(n, stars, w)
    ensures Sound(n, |stars|)
    decreases n
  {
    if n.Dummy? {
      forall i | 0 <= i < |n.children|
        ensures Sound(n.children[i], |stars|)
      {
        assert SlotOk(n.sector, i, n.children[i], stars, w);
        ShapedIsSound(n.children[i], stars, w);
      }
    }
  }
}
