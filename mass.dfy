/**
 * The aggregation pass of quad-tree.go (AssignClusterPos with CenterOfMass, CenterOfMass2
 * and GetRealChildren): after the tree is built, every dummy's star is moved to the centre
 * of mass of the stars below it and given their total mass, bottom-up.
 */
module ClusterMass {
  import opened Physics
  import opened Quadrants
  import opened QuadTree

  /** A position and a mass: what AssignClusterPos hands back up the recursion. */
  datatype PseudoStar = PseudoStar(x: real, y: real, mass: real)

  /**
   * The mass-weighted mean of point p of mass m and point q of mass k: the point whose
   * moment under the combined mass is the sum of the two moments.
   */
  function WeightedMean(p: Vec, m: real, q: Vec, k: real): (r: Vec)
    requires m + k != 0.0
    ensures Scale(r, m + k) == Add(Scale(p, m), Scale(q, k))
  {
    Vec((p.x * m + q.x * k) / (m + k), (p.y * m + q.y * k) / (m + k))
  }

  /** The centre of mass of two stars. */
  function CenterOfMass(n: Star, m: Star): (r: Vec)
    requires n.mass + m.mass != 0.0
    ensures Scale(r, n.mass + m.mass) == Add(Scale(n.position, n.mass), Scale(m.position, m.mass))
  {
    WeightedMean(n.position, n.mass, m.position, m.mass)
  }

  /** The centre of mass of a star and an aggregated cluster. */
  function CenterOfMass2(n: Star, m: PseudoStar): (r: Vec)
    requires n.mass + m.mass != 0.0
    ensures Scale(r, n.mass + m.mass) == Add(Scale(n.position, n.mass), Scale(Vec(m.x, m.y), m.mass))
  {
    WeightedMean(n.position, n.mass, Vec(m.x, m.y), m.mass)
  }

  /** Two unit masses at (0, 0) and (10, 0) balance at (5, 0). */
  lemma CenterOfMassExample()
    ensures CenterOfMass(Star(Vec(0.0, 0.0), Zero, Zero, 1.0), Star(Vec(10.0, 0.0), Zero, Zero, 1.0)) == Vec(5.0, 0.0)
  {
  }

  /** Every index in ks names a star of positive mass. */
  ghost predicate Weighted(ks: seq<nat>, stars: seq<Star>)
  {
    forall i :: 0 <= i < |ks| ==> ks[i] < |stars| && stars[ks[i]].mass > 0.0
  }

  /** Weighted holds of a concatenation exactly when it holds of both parts. */
  lemma WeightedAppend(a: seq<nat>, b: seq<nat>, stars: seq<Star>)
    ensures Weighted(a + b, stars) <==> Weighted(a, stars) && Weighted(b, stars)
  {
    if Weighted(a + b, stars) {
      forall i | 0 <= i < |a| ensures a[i] < |stars| && stars[a[i]].mass > 0.0 {
        assert (a + b)[i] == a[i];
      }
      forall i | 0 <= i < |b| ensures b[i] < |stars| && stars[b[i]].mass > 0.0 {
        assert (a + b)[|a| + i] == b[i];
      }
    }
  }

  /** Weighted stated over the members of ks. */
  lemma WeightedMembers(ks: seq<nat>, stars: seq<Star>)
    ensures Weighted(ks, stars) <==> forall k :: k in ks ==> k < |stars| && stars[k].mass > 0.0
  {
    if Weighted(ks, stars) {
      forall k | k in ks ensures k < |stars| && stars[k].mass > 0.0 {
        var i :| 0 <= i < |ks| && ks[i] == k;
      }
    }
    if forall k :: k in ks ==> k < |stars| && stars[k].mass > 0.0 {
      forall i | 0 <= i < |ks| ensures ks[i] < |stars| && stars[ks[i]].mass > 0.0 {
        assert ks[i] in ks;
      }
    }
  }

  /** Total mass of the stars indexed by ks. */
  function MassSum(ks: seq<nat>, stars: seq<Star>): real
    requires Weighted(ks, stars)
  {
    if ks == [] then 0.0 else stars[ks[0]].mass + MassSum(ks[1..], stars)
  }

  /** Sum of the moments (position times mass) of the stars indexed by ks. */
  function Moment(ks: seq<nat>, stars: seq<Star>): Vec
    requires Weighted(ks, stars)
  {
    if ks == [] then Zero else Add(Scale(stars[ks[0]].position, stars[ks[0]].mass), Moment(ks[1..], stars))
  }

  lemma {:induction false} MassSumAppend(a: seq<nat>, b: seq<nat>, stars: seq<Star>)
    requires Weighted(a, stars) && Weighted(b, stars)
    ensures Weighted(a + b, stars)
    ensures MassSum(a + b, stars) == MassSum(a, stars) + MassSum(b, stars)
  {
    WeightedAppend(a, b, stars);
    if a != [] {
      assert (a + b)[1..] == a[1..] + b;
      MassSumAppend(a[1..], b, stars);
    } else {
      assert a + b == b;
    }
  }

  lemma {:induction false} MomentAppend(a: seq<nat>, b: seq<nat>, stars: seq<Star>)
    requires Weighted(a, stars) && Weighted(b, stars)
    ensures Weighted(a + b, stars)
    ensures Moment(a + b, stars) == Add(Moment(a, stars), Moment(b, stars))
  {
    WeightedAppend(a, b, stars);
    if a != [] {
      assert (a + b)[1..] == a[1..] + b;
      MomentAppend(a[1..], b, stars);
    } else {
      assert a + b == b;
    }
  }

  /** Positive masses sum to a positive total, and nothing to zero. */
  lemma {:induction false} MassSumPositive(ks: seq<nat>, stars: seq<Star>)
    requires Weighted(ks, stars)
    ensures MassSum(ks, stars) >= 0.0
    ensures ks != [] ==> MassSum(ks, stars) > 0.0
  {
    if ks != [] {
      assert ks == [ks[0]] + ks[1..];
      WeightedAppend([ks[0]], ks[1..], stars);
      MassSumPositive(ks[1..], stars);
    }
  }

  /**
   * The total mass and the total moment of a list of stars do not depend on the order in
   * which the stars are listed: every permutation of the list gives the same sums.
   */
  lemma {:induction false} MassSumPermutation(a: seq<nat>, b: seq<nat>, stars: seq<Star>)
    requires Weighted(a, stars) && multiset(a) == multiset(b)
    ensures Weighted(b, stars)
    ensures MassSum(b, stars) == MassSum(a, stars)
    ensures Moment(b, stars) == Moment(a, stars)
    decreases |a|
  {
    WeightedPermuted(a, b, stars);
    if a == [] {
      assert |b| == |multiset(b)| == 0;
    } else {
      var left, right := PickOut(a, b, stars);
      MassSumPermutation(a[1..], left + right, stars);
      MiddleSums(left, a[0], right, stars);
    }
  }

  /** The first index of a, found in its permutation b, splits b into two parts that permute the rest of a. */
  lemma PickOut(a: seq<nat>, b: seq<nat>, stars: seq<Star>) returns (left: seq<nat>, right: seq<nat>)
    requires a != [] && Weighted(a, stars) && multiset(a) == multiset(b)
    ensures b == left + [a[0]] + right
    ensures multiset(left + right) == multiset(a[1..])
    ensures a[0] < |stars| && stars[a[0]].mass > 0.0
    ensures Weighted(a[1..], stars) && Weighted(left, stars) && Weighted(right, stars)
  {
    WeightedPermuted(a, b, stars);
    var i := FindFirst(a, b);
    left, right := b[..i], b[i + 1..];
    RemoveOne(a, b, i);
    WeightedSlice(a, 1, |a|, stars);
    WeightedSlice(b, 0, i, stars);
    WeightedSlice(b, i + 1, |b|, stars);
  }

  /** A position in b of the first element of its permutation a. */
  lemma FindFirst(a: seq<nat>, b: seq<nat>) returns (i: nat)
    requires a != [] && multiset(a) == multiset(b)
    ensures i < |b| && b[i] == a[0] && b == b[..i] + [a[0]] + b[i + 1..]
  {
    assert a[0] in multiset(b);
    i :| 0 <= i < |b| && b[i] == a[0];
    assert b == b[..i] + [b[i]] + b[i + 1..];
  }

  /** Every slice of a weighted list is weighted. */
  lemma WeightedSlice(ks: seq<nat>, lo: nat, hi: nat, stars: seq<Star>)
    requires lo <= hi <= |ks| && Weighted(ks, stars)
    ensures Weighted(ks[lo..hi], stars)
  {
    forall j | 0 <= j < hi - lo
      ensures ks[lo..hi][j] < |stars| && stars[ks[lo..hi][j]].mass > 0.0
    {
      assert ks[lo..hi][j] == ks[lo + j];
    }
  }

  /** Weighted depends only on which indices a list holds. */
  lemma WeightedPermuted(a: seq<nat>, b: seq<nat>, stars: seq<Star>)
    requires Weighted(a, stars) && multiset(a) == multiset(b)
    ensures Weighted(b, stars)
  {
    WeightedMembers(a, stars);
    WeightedMembers(b, stars);
    forall k | k in b
      ensures k in a
    {
      assert k in multiset(b);
    }
  }

  /** Summing left, then star k, then right, against summing star k first and then left and right. */
  lemma MiddleSums(left: seq<nat>, k: nat, right: seq<nat>, stars: seq<Star>)
    requires Weighted(left, stars) && k < |stars| && stars[k].mass > 0.0 && Weighted(right, stars)
    ensures Weighted(left + [k] + right, stars) && Weighted(left + right, stars)
    ensures MassSum(left + [k] + right, stars) == stars[k].mass + MassSum(left + right, stars)
    ensures Moment(left + [k] + right, stars) == Add(Scale(stars[k].position, stars[k].mass), Moment(left + right, stars))
  {
    assert [k][0] == k && [k][1..] == [];
    assert Weighted([k], stars);
    MassSumAppend(left, [k], stars);
    MassSumAppend(left + [k], right, stars);
    MassSumAppend(left, right, stars);
    MomentAppend(left, [k], stars);
    MomentAppend(left + [k], right, stars);
    MomentAppend(left, right, stars);
    var term, l, r := Scale(stars[k].position, stars[k].mass), Moment(left, stars), Moment(right, stars);
    assert Moment([k], stars) == Add(term, Zero);
    AddAbelianGroup(l, term, r);
    AddAbelianGroup(term, l, r);
  }

  /** Taking the first element of a out of its permutation b at position i leaves a permutation of the rest of a. */
  lemma RemoveOne(a: seq<nat>, b: seq<nat>, i: nat)
    requires a != [] && multiset(a) == multiset(b) && i < |b| && b[i] == a[0]
    ensures multiset(b[..i] + b[i + 1..]) == multiset(a[1..])
    ensures multiset(b[..i] + b[i + 1..] + [a[0]]) == multiset(b)
  {
    var left, right := b[..i], b[i + 1..];
    assert b == left + [b[i]] + right;
    assert a == [a[0]] + a[1..];
    assert multiset(b) == multiset(left) + multiset{a[0]} + multiset(right);
    assert multiset(a) == multiset{a[0]} + multiset(a[1..]);
    assert multiset(left + right) == multiset(left) + multiset(right);
    assert multiset(left + right + [a[0]]) == multiset(left) + multiset(right) + multiset{a[0]};
    assert multiset(a[1..]) == multiset(a) - multiset{a[0]};
    assert multiset(left + right) == multiset(b) - multiset{a[0]};
  }


  /**
   * Every dummy below n has at least one star below it. Only the root of a tree may be an
   * empty dummy; a dummy in a slot was created to hold two stars.
   */
  predicate Populated(n: Node)
    decreases n, 1
  {
    n.Dummy? ==> PopulatedSlots(n.children)
  }

  predicate PopulatedSlots(cs: seq<Node>)
    decreases cs, 0
  {
    forall i :: 0 <= i < |cs| ==> Populated(cs[i]) && (cs[i].Dummy? ==> Leaves(cs[i]) != [])
  }

  /** A node's star with position and mass cleared, as AssignClusterPos does before its loop. */
  function Cleared(s: Star): Star
  {
    s.(position := Zero, mass := 0.0)
  }

  /**
   * The summary AssignClusterPos returns for a node: a leaf's own star, or for a dummy the
   * running star after absorbing its children in slot order.
   */
  function Summary(n: Node, stars: seq<Star>): (r: PseudoStar)
    requires !n.Nil? && Populated(n) && Weighted(Leaves(n), stars)
    ensures r.mass == MassSum(Leaves(n), stars)
    decreases n, 1
  {
    if n.Leaf? then
      assert Leaves(n)[0] == n.index;
      var s := stars[n.index];
      PseudoStar(s.position.x, s.position.y, s.mass)
    else
      var s := Accumulate(Cleared(n.star), n.children, stars);
      PseudoStar(s.position.x, s.position.y, s.mass)
  }

  /**
   * The running star of AssignClusterPos's loop after the slots cs, starting from s: each
   * leaf's star is absorbed with CenterOfMass, each dummy's summary with CenterOfMass2, and
   * empty slots are skipped. The mass grows by exactly the masses of the stars below cs.
   */
  function Accumulate(s: Star, cs: seq<Node>, stars: seq<Star>): (r: Star)
    requires s.mass >= 0.0 && PopulatedSlots(cs) && Weighted(ChildLeaves(cs), stars)
    ensures r.mass == s.mass + MassSum(ChildLeaves(cs), stars)
    ensures r.velocity == s.velocity && r.acceleration == s.acceleration
    decreases cs, 0
  {
    if cs == [] then s
    else
      var init, c := cs[..|cs| - 1], cs[|cs| - 1];
      SlotsSplit(cs, stars);
      var acc := Accumulate(s, init, stars);
      MassSumPositive(ChildLeaves(init), stars);
      Absorb(acc, c, stars)
  }

  /** One step of the loop: the running star acc absorbs slot c. */
  function Absorb(acc: Star, c: Node, stars: seq<Star>): (r: Star)
    requires acc.mass >= 0.0 && Populated(c) && (c.Dummy? ==> Leaves(c) != []) && Weighted(Leaves(c), stars)
    ensures r.mass == acc.mass + MassSum(Leaves(c), stars)
    ensures r.velocity == acc.velocity && r.acceleration == acc.acceleration
    decreases c, 2
  {
    if c.Nil? then
      acc
    else if c.Leaf? then
      assert Leaves(c)[0] == c.index;
      var m := stars[c.index];
      acc.(position := CenterOfMass(acc, m), mass := acc.mass + m.mass)
    else
      MassSumPositive(Leaves(c), stars);
      var ps := Summary(c, stars);
      acc.(position := CenterOfMass2(acc, ps), mass := acc.mass + ps.mass)
  }

  /** Splitting off the last slot: the preconditions carry over to both parts and the masses add up. */
  lemma SlotsSplit(cs: seq<Node>, stars: seq<Star>)
    requires cs != [] && PopulatedSlots(cs) && Weighted(ChildLeaves(cs), stars)
    ensures var init, c := cs[..|cs| - 1], cs[|cs| - 1];
            && ChildLeaves(cs) == ChildLeaves(init) + Leaves(c)
            && PopulatedSlots(init) && Populated(c) && (c.Dummy? ==> Leaves(c) != [])
            && Weighted(ChildLeaves(init), stars) && Weighted(Leaves(c), stars)
            && MassSum(ChildLeaves(cs), stars) == MassSum(ChildLeaves(init), stars) + MassSum(Leaves(c), stars)
            && Moment(ChildLeaves(cs), stars) == Add(Moment(ChildLeaves(init), stars), Moment(Leaves(c), stars))
  {
    var init, c := cs[..|cs| - 1], cs[|cs| - 1];
    assert cs == init + [c];
    ChildLeavesAppend(init, [c]);
    ChildLeavesSingle(c);
    assert |init| == |cs| - 1 && forall i :: 0 <= i < |init| ==> init[i] == cs[i];
    WeightedAppend(ChildLeaves(init), Leaves(c), stars);
    MassSumAppend(ChildLeaves(init), Leaves(c), stars);
    MomentAppend(ChildLeaves(init), Leaves(c), stars);
  }

  /**
   * The summary of a node is the centre of mass of the stars below it: its position times
   * its mass is the sum of their moments.
   */
  lemma {:induction false} SummaryMoment(n: Node, stars: seq<Star>)
    requires !n.Nil? && Populated(n) && Weighted(Leaves(n), stars)
    ensures var r := Summary(n, stars);
            Scale(Vec(r.x, r.y), r.mass) == Moment(Leaves(n), stars)
    decreases n, 1
  {
    var r := Summary(n, stars);
    if n.Dummy? {
      var a := Accumulate(Cleared(n.star), n.children, stars);
      AccumulateMoment(Cleared(n.star), n.children, stars);
      DummySummary(n, stars);
      assert Vec(r.x, r.y) == a.position && r.mass == a.mass;
      assert Scale(Cleared(n.star).position, Cleared(n.star).mass) == Zero;
      assert Leaves(n) == ChildLeaves(n.children);
    } else {
      LeafMoment(n, stars);
    }
  }

  lemma DummySummary(n: Node, stars: seq<Star>)
    requires n.Dummy? && Populated(n) && Weighted(Leaves(n), stars)
    ensures var a := Accumulate(Cleared(n.star), n.children, stars);
            Summary(n, stars) == PseudoStar(a.position.x, a.position.y, a.mass)
  {
  }

  lemma LeafMoment(n: Node, stars: seq<Star>)
    requires n.Leaf? && Weighted(Leaves(n), stars)
    ensures n.index < |stars|
    ensures var s := stars[n.index];
            Moment(Leaves(n), stars) == Scale(s.position, s.mass)
            && Summary(n, stars) == PseudoStar(s.position.x, s.position.y, s.mass)
  {
    assert Leaves(n) == [n.index] && Leaves(n)[0] == n.index && Leaves(n)[1..] == [];
  }

  lemma {:induction false} AccumulateMoment(s: Star, cs: seq<Node>, stars: seq<Star>)
    requires s.mass >= 0.0 && PopulatedSlots(cs) && Weighted(ChildLeaves(cs), stars)
    ensures var r := Accumulate(s, cs, stars);
            Scale(r.position, r.mass) == Add(Scale(s.position, s.mass), Moment(ChildLeaves(cs), stars))
    decreases cs, 0
  {
    if cs != [] {
      var init, c := cs[..|cs| - 1], cs[|cs| - 1];
      SlotsSplit(cs, stars);
      AccumulateMoment(s, init, stars);
      if c.Dummy? {
        SummaryMoment(c, stars);
      }
    }
  }

  /**
   * A node with stars below it has positive aggregated mass, and its aggregated position is
   * their mass-weighted mean: the sum of their moments divided by their total mass.
   */
  lemma {:induction false} SummaryIsCentreOfMass(n: Node, stars: seq<Star>)
    requires !n.Nil? && Populated(n) && Weighted(Leaves(n), stars) && Leaves(n) != []
    ensures Summary(n, stars).mass == MassSum(Leaves(n), stars) > 0.0
    ensures Summary(n, stars).x == Moment(Leaves(n), stars).x / MassSum(Leaves(n), stars)
    ensures Summary(n, stars).y == Moment(Leaves(n), stars).y / MassSum(Leaves(n), stars)
  {
    var r := Summary(n, stars);
    MassSumPositive(Leaves(n), stars);
    SummaryMoment(n, stars);
    Unscale(Vec(r.x, r.y), r.mass, Moment(Leaves(n), stars));
  }

  /** Undoing a scaling by a non-zero factor. */
  lemma Unscale(v: Vec, m: real, w: Vec)
    requires m != 0.0 && Scale(v, m) == w
    ensures v.x == w.x / m && v.y == w.y / m
  {
  }

  /** The new child slots: every occupied slot aggregated, empty slots left empty. */
  function AggregateAll(cs: seq<Node>, stars: seq<Star>): (r: seq<Node>)
    requires PopulatedSlots(cs) && Weighted(ChildLeaves(cs), stars)
    ensures |r| == |cs|
    decreases cs, 0
  {
    if cs == [] then []
    else
      SlotsSplit(cs, stars);
      AggregateAll(cs[..|cs| - 1], stars) + [Aggregate(cs[|cs| - 1], stars)]
  }

  /**
   * The tree after AssignClusterPos: each dummy's star carries the position and mass of its
   * summary (its velocity and acceleration untouched); leaves and empty slots are unchanged.
   */
  function Aggregate(n: Node, stars: seq<Star>): (r: Node)
    requires Populated(n) && Weighted(Leaves(n), stars)
    decreases n, 1
  {
    match n
    case Nil => n
    case Leaf(_, _) => n
    case Dummy(s, sec, cs) =>
      var a := Accumulate(Cleared(s), cs, stars);
      Dummy(a, sec, AggregateAll(cs, stars))
  }

  /** Aggregation keeps every slot's kind, sector and leaves: only dummies' stars change. */
  lemma {:induction false} AggregateKeepsTree(n: Node, stars: seq<Star>)
    requires Populated(n) && Weighted(Leaves(n), stars)
    ensures var r := Aggregate(n, stars);
            && r.Nil? == n.Nil? && r.Leaf? == n.Leaf? && r.Dummy? == n.Dummy?
            && (n.Leaf? ==> r == n)
            && (!n.Nil? ==> r.sector == n.sector)
            && (n.Dummy? ==> |r.children| == |n.children|)
            && Leaves(r) == Leaves(n)
    decreases n, 1
  {
    if n.Dummy? {
      AggregateAllKeepsTree(n.children, stars);
    }
  }

  lemma {:induction false} AggregateAllKeepsTree(cs: seq<Node>, stars: seq<Star>)
    requires PopulatedSlots(cs) && Weighted(ChildLeaves(cs), stars)
    ensures ChildLeaves(AggregateAll(cs, stars)) == ChildLeaves(cs)
    ensures forall i :: 0 <= i < |cs| ==>
              && Populated(cs[i]) && Weighted(Leaves(cs[i]), stars)
              && AggregateAll(cs, stars)[i] == Aggregate(cs[i], stars)
    decreases cs, 0
  {
    if cs != [] {
      var init, c := cs[..|cs| - 1], cs[|cs| - 1];
      SlotsSplit(cs, stars);
      AggregateAllKeepsTree(init, stars);
      AggregateKeepsTree(c, stars);
      var r := AggregateAll(cs, stars);
      assert r == AggregateAll(init, stars) + [Aggregate(c, stars)];
      ChildLeavesAppend(AggregateAll(init, stars), [Aggregate(c, stars)]);
      ChildLeavesSingle(Aggregate(c, stars));
      forall i | 0 <= i < |cs|
        ensures Populated(cs[i]) && Weighted(Leaves(cs[i]), stars) && r[i] == Aggregate(cs[i], stars)
      {
        if i < |cs| - 1 {
          assert cs[i] == init[i] && r[i] == AggregateAll(init, stars)[i];
        }
      }
    }
  }

  /** A shaped tree keeps its shape under aggregation: the shape does not look at dummies' stars. */
  lemma {:induction false} AggregateKeepsShape(n: Node, stars: seq<Star>, w: real)
    requires Populated(n) && Weighted(Leaves(n), stars) && Shaped(n, stars, w)
    ensures Shaped(Aggregate(n, stars), stars, w)
    decreases n
  {
    if n.Dummy? {
      var r := Aggregate(n, stars);
      AggregateKeepsTree(n, stars);
      AggregateAllKeepsTree(n.children, stars);
      forall i | 0 <= i < 4
        ensures SlotOk(r.sector, i, r.children[i], stars, w)
      {
        var c := n.children[i];
        assert SlotOk(n.sector, i, c, stars, w);
        AggregateKeepsTree(c, stars);
        AggregateKeepsShape(c, stars, w);
      }
    }
  }

  /** The summary returned for a dummy is exactly what its aggregated star now holds. */
  lemma AggregatedStarIsSummary(n: Node, stars: seq<Star>)
    requires n.Dummy? && Populated(n) && Weighted(Leaves(n), stars)
    ensures var r := Aggregate(n, stars);
            r.Dummy? && Summary(n, stars) == PseudoStar(r.star.position.x, r.star.position.y, r.star.mass)
  {
  }

  /** A shaped tree is populated, and with positive masses all its leaves are weighted. */
  lemma {:induction false} ShapedIsReady(n: Node, stars: seq<Star>, w: real)
    requires Shaped(n, stars, w)
    requires forall k :: 0 <= k < |stars| ==> stars[k].mass > 0.0
    ensures Populated(n) && Weighted(Leaves(n), stars)
    decreases n
  {
    if n.Dummy? {
      forall i | 0 <= i < |n.children|
        ensures Populated(n.children[i]) && (n.children[i].Dummy? ==> Leaves(n.children[i]) != [])
      {
        assert SlotOk(n.sector, i, n.children[i], stars, w);
        ShapedIsReady(n.children[i], stars, w);
      }
      forall j | 0 <= j < |Leaves(n)|
        ensures Leaves(n)[j] < |stars| && stars[Leaves(n)[j]].mass > 0.0
      {
        var k := Leaves(n)[j];
        assert k in Leaves(n);
        var i := LeafInSomeSlot(n.children, k);
        assert SlotOk(n.sector, i, n.children[i], stars, w);
      }
    }
  }

  /** The non-empty slots of cs, in slot order. */
  function RealChildren(cs: seq<Node>): seq<Node>
    decreases |cs|
  {
    if cs == [] then []
    else
      var init := RealChildren(cs[..|cs| - 1]);
      if cs[|cs| - 1].Nil? then init else init + [cs[|cs| - 1]]
  }

  /** The list of non-empty children holds no empty slot and every occupied slot. */
  lemma {:induction false} RealChildrenMembers(cs: seq<Node>)
    ensures forall c :: c in RealChildren(cs) ==> !c.Nil? && c in cs
    ensures forall i :: 0 <= i < |cs| && !cs[i].Nil? ==> cs[i] in RealChildren(cs)
    decreases |cs|
  {
    if cs != [] {
      var init := cs[..|cs| - 1];
      RealChildrenMembers(init);
      assert forall c :: c in init ==> c in cs;
      forall i | 0 <= i < |cs| && !cs[i].Nil?
        ensures cs[i] in RealChildren(cs)
      {
        if i < |cs| - 1 {
          assert cs[i] == init[i];
        }
      }
    }
  }

  /** The list of non-empty children has the same leaves in the same order, and stays populated. */
  lemma {:induction false} RealChildrenLeaves(cs: seq<Node>)
    ensures ChildLeaves(RealChildren(cs)) == ChildLeaves(cs)
    ensures PopulatedSlots(cs) ==> PopulatedSlots(RealChildren(cs))
    decreases |cs|
  {
    if cs != [] {
      var init, c := cs[..|cs| - 1], cs[|cs| - 1];
      assert cs == init + [c];
      RealChildrenLeaves(init);
      ChildLeavesAppend(init, [c]);
      ChildLeavesSingle(c);
      var ri := RealChildren(init);
      if !c.Nil? {
        var r := ri + [c];
        ChildLeavesAppend(ri, [c]);
        if PopulatedSlots(cs) {
          assert PopulatedSlots(init);
          forall i | 0 <= i < |r|
            ensures Populated(r[i]) && (r[i].Dummy? ==> Leaves(r[i]) != [])
          {
            if i < |ri| {
              assert r[i] == ri[i];
            }
          }
        }
      } else {
        assert Leaves(c) == [];
      }
    }
  }

  /**
   * Absorbing the list of non-empty children gives the same running star as absorbing the
   * slots, so AssignClusterPos's loop over either list aggregates alike.
   */
  lemma {:induction false} RealChildrenAccumulate(s: Star, cs: seq<Node>, stars: seq<Star>)
    requires s.mass >= 0.0 && PopulatedSlots(cs) && Weighted(ChildLeaves(cs), stars)
    ensures PopulatedSlots(RealChildren(cs)) && Weighted(ChildLeaves(RealChildren(cs)), stars)
    ensures Accumulate(s, RealChildren(cs), stars) == Accumulate(s, cs, stars)
    decreases |cs|
  {
    RealChildrenLeaves(cs);
    if cs != [] {
      var init, c := cs[..|cs| - 1], cs[|cs| - 1];
      SlotsSplit(cs, stars);
      RealChildrenAccumulate(s, init, stars);
      var ri := RealChildren(init);
      if !c.Nil? {
        var r := ri + [c];
        assert r[..|r| - 1] == ri && r[|r| - 1] == c;
        SlotsSplit(r, stars);
      }
    }
  }

  /** GetRealChildren: the node's non-empty child slots, in slot order (none for a leaf). */
  method GetRealChildren(n: Node) returns (children: seq<Node>)
    requires !n.Nil?
    ensures children == RealChildren(if n.Dummy? then n.children else [])
  {
    var cs := if n.Dummy? then n.children else [];
    children := [];
    for i := 0 to |cs|
      invariant children == RealChildren(cs[..i])
    {
      assert cs[..i + 1][..i] == cs[..i];
      if cs[i] != Nil {
        children := children + [cs[i]];
      }
    }
    assert cs[..|cs|] == cs;
  }

  /**
   * AssignClusterPos: a dummy's star is cleared to position (0, 0) and mass 0, then each
   * occupied slot in order is absorbed: a leaf's star by CenterOfMass, a dummy by first
   * aggregating it recursively and absorbing its summary by CenterOfMass2. The result is the
   * aggregated node and its summary; for a leaf, the leaf itself and its star.
   */
  method AssignClusterPos(n: Node, stars: seq<Star>) returns (r: Node, ps: PseudoStar)
    requires !n.Nil? && Populated(n) && Weighted(Leaves(n), stars)
    ensures r == Aggregate(n, stars) && ps == Summary(n, stars)
    decreases n, 1
  {
    if n.Dummy? {
      var cs := n.children;
      var s := n.star;
      s := s.(position := Zero);
      s := s.(mass := 0.0);
      var done := cs;
      SlotsOfPrefix(cs, 0, stars);
      for i := 0 to |cs|
        invariant PopulatedSlots(cs[..i]) && Weighted(ChildLeaves(cs[..i]), stars)
        invariant s == Accumulate(Cleared(n.star), cs[..i], stars)
        invariant done == AggregateAll(cs[..i], stars) + cs[i..]
      {
        LoopStep(Cleared(n.star), cs, i, stars);
        var sub;
        s, sub := AbsorbChild(s, cs[i], stars);
        done := done[i := sub];
      }
      assert cs[..|cs|] == cs;
      r := Dummy(s, n.sector, done);
      ps := PseudoStar(s.position.x, s.position.y, s.mass);
    } else {
      assert Leaves(n)[0] == n.index;
      var s := stars[n.index];
      r := n;
      ps := PseudoStar(s.position.x, s.position.y, s.mass);
    }
  }

  /**
   * The body of AssignClusterPos's loop for one child: a leaf's star is absorbed with
   * CenterOfMass; a dummy is first aggregated recursively and its summary absorbed with
   * CenterOfMass2. Returns the running star and the child as it now stands.
   */
  method AbsorbChild(s: Star, c: Node, stars: seq<Star>) returns (r: Star, sub: Node)
    requires s.mass >= 0.0 && Populated(c) && (c.Dummy? ==> Leaves(c) != []) && Weighted(Leaves(c), stars)
    ensures r == Absorb(s, c, stars) && sub == Aggregate(c, stars)
    decreases c, 2
  {
    r, sub := s, c;
    if c.Leaf? {
      assert Leaves(c)[0] == c.index;
      var m := stars[c.index];
      r := r.(position := CenterOfMass(r, m));
      r := r.(mass := r.mass + m.mass);
    } else if c.Dummy? {
      MassSumPositive(Leaves(c), stars);
      var p;
      sub, p := AssignClusterPos(c, stars);
      r := r.(position := CenterOfMass2(r, p));
      r := r.(mass := r.mass + p.mass);
    }
  }

  /**
   * What one pass of AssignClusterPos's loop must establish: slot i is absorbed into the
   * running star of the first i slots, and its aggregate is written into slot i.
   */
  lemma LoopStep(s0: Star, cs: seq<Node>, i: nat, stars: seq<Star>)
    requires i < |cs| && s0.mass >= 0.0 && PopulatedSlots(cs) && Weighted(ChildLeaves(cs), stars)
    ensures PopulatedSlots(cs[..i]) && Weighted(ChildLeaves(cs[..i]), stars)
    ensures PopulatedSlots(cs[..i + 1]) && Weighted(ChildLeaves(cs[..i + 1]), stars)
    ensures Populated(cs[i]) && (cs[i].Dummy? ==> Leaves(cs[i]) != []) && Weighted(Leaves(cs[i]), stars)
    ensures cs[i].Dummy? ==> MassSum(Leaves(cs[i]), stars) > 0.0
    ensures Accumulate(s0, cs[..i], stars).mass >= 0.0
    ensures Accumulate(s0, cs[..i + 1], stars) == Absorb(Accumulate(s0, cs[..i], stars), cs[i], stars)
    ensures !cs[i].Dummy? ==> Aggregate(cs[i], stars) == cs[i]
    ensures (AggregateAll(cs[..i], stars) + cs[i..])[i := Aggregate(cs[i], stars)]
            == AggregateAll(cs[..i + 1], stars) + cs[i + 1..]
  {
    var pre := cs[..i + 1];
    assert pre[..i] == cs[..i] && pre[i] == cs[i];
    SlotsOfPrefix(cs, i, stars);
    SlotsOfPrefix(cs, i + 1, stars);
    SlotsSplit(pre, stars);
    MassSumPositive(ChildLeaves(cs[..i]), stars);
    MassSumPositive(Leaves(cs[i]), stars);
    PrefixAbsorb(s0, pre, stars);
    PrefixWrite(cs, i, stars);
  }

  lemma PrefixAbsorb(s0: Star, pre: seq<Node>, stars: seq<Star>)
    requires pre != [] && s0.mass >= 0.0 && PopulatedSlots(pre) && Weighted(ChildLeaves(pre), stars)
    ensures PopulatedSlots(pre[..|pre| - 1]) && Weighted(ChildLeaves(pre[..|pre| - 1]), stars)
    ensures var c := pre[|pre| - 1]; Populated(c) && (c.Dummy? ==> Leaves(c) != []) && Weighted(Leaves(c), stars)
    ensures Accumulate(s0, pre[..|pre| - 1], stars).mass >= 0.0
    ensures Accumulate(s0, pre, stars) == Absorb(Accumulate(s0, pre[..|pre| - 1], stars), pre[|pre| - 1], stars)
  {
    SlotsSplit(pre, stars);
    MassSumPositive(ChildLeaves(pre[..|pre| - 1]), stars);
  }

  lemma PrefixWrite(cs: seq<Node>, i: nat, stars: seq<Star>)
    requires i < |cs| && PopulatedSlots(cs[..i + 1]) && Weighted(ChildLeaves(cs[..i + 1]), stars)
    requires PopulatedSlots(cs[..i]) && Weighted(ChildLeaves(cs[..i]), stars)
    requires Populated(cs[i]) && Weighted(Leaves(cs[i]), stars)
    ensures !cs[i].Dummy? ==> Aggregate(cs[i], stars) == cs[i]
    ensures (AggregateAll(cs[..i], stars) + cs[i..])[i := Aggregate(cs[i], stars)]
            == AggregateAll(cs[..i + 1], stars) + cs[i + 1..]
  {
    var pre := cs[..i + 1];
    assert pre[..i] == cs[..i] && pre[i] == cs[i];
    var left := AggregateAll(cs[..i], stars);
    assert AggregateAll(pre, stars) == left + [Aggregate(cs[i], stars)];
    assert cs[i..] == [cs[i]] + cs[i + 1..];
  }

  /** A prefix of populated, weighted slots is populated and weighted. */
  lemma SlotsOfPrefix(cs: seq<Node>, i: nat, stars: seq<Star>)
    requires i <= |cs| && PopulatedSlots(cs) && Weighted(ChildLeaves(cs), stars)
    ensures PopulatedSlots(cs[..i]) && Weighted(ChildLeaves(cs[..i]), stars)
  {
    assert cs == cs[..i] + cs[i..];
    ChildLeavesAppend(cs[..i], cs[i..]);
    WeightedAppend(ChildLeaves(cs[..i]), ChildLeaves(cs[i..]), stars);
  }
}
