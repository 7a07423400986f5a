/**
 * The quad tree of quad-tree.go as a value: its nodes, the placeholder ("dummy") nodes
 * created while inserting, the shape every built tree has, and the insertion of one star
 * as a recursive specification of the descent loop of BuildQuadTree.
 */
module QuadTree {
  import opened Physics
  import opened Quadrants

  /**
   * A slot of the tree. A leaf holds one star of the universe, by its index: in the source
   * the leaf points at the universe's own star, so the force pass sees that star's current
   * fields and recognises the star itself by identity. A dummy is an internal node with its
   * own (pseudo) star and exactly four child slots NW, NE, SW, SE. An empty slot is Nil.
   */
  datatype Node =
    | Nil
    | Leaf(index: nat, sector: Quadrant)
    | Dummy(star: Star, sector: Quadrant, children: seq<Node>)

  /** The star indices held by the leaves of n, in slot order. */
  function Leaves(n: Node): seq<nat>
    decreases n
  {
    match n
    case Nil => []
    case Leaf(k, _) => [k]
    case Dummy(_, _, cs) => ChildLeaves(cs)
  }

  function ChildLeaves(cs: seq<Node>): seq<nat>
    decreases cs
  {
    if cs == [] then [] else Leaves(cs[0]) + ChildLeaves(cs[1..])
  }

  /** The star an internal node starts with: at the centre of its sector, at rest, massless. */
  function Placeholder(sector: Quadrant): Star
  {
    Star(Centre(sector), Zero, Zero, 0.0)
  }

  const EmptySlots: seq<Node> := [Nil, Nil, Nil, Nil]

  /** The root of a new tree: a dummy over the universe's whole square, with four empty slots. */
  function InitRoot(u: Universe): (r: Node)
    ensures r.Dummy? && r.sector == RootSector(u.width) && r.star == Placeholder(r.sector)
    ensures |r.children| == 4 && forall i :: 0 <= i < 4 ==> r.children[i] == Nil
    ensures Leaves(r) == []
  {
    var q := Quadrant(0.0, 0.0, u.width);
    var s := Star(Vec(u.width / 2.0, u.width / 2.0), Zero, Zero, 0.0);
    Dummy(s, q, EmptySlots)
  }

  /**
   * A new dummy for sub-square i of a node with the given star and sector: its star is moved
   * a quarter of the parent's side towards sub-square i, and its sector is the square of half
   * the parent's side centred on that star. When the parent's star sits at the centre of the
   * parent's sector (as a placeholder does), the new sector is exactly sub-square i.
   */
  function NewDummy(parent: Star, sector: Quadrant, i: int): (r: Node)
    ensures r.Dummy? && |r.children| == 4 && forall c :: c in r.children ==> c == Nil
    ensures r.sector.width == sector.width / 2.0
    ensures r.star == Placeholder(r.sector)
    ensures parent.position == Centre(sector) && 0 <= i < 4 ==> r.sector == FindNewQuad(sector, i)
  {
    var w := sector.width / 4.0;
    var dx := if i == NW || i == SW then -w else if i == NE || i == SE then w else 0.0;
    var dy := if i == NW || i == NE then w else if i == SW || i == SE then -w else 0.0;
    var x := parent.position.x + dx;
    var y := parent.position.y + dy;
    var star := Star(Vec(x, y), Zero, Zero, 0.0);
    Dummy(star, Quadrant(star.position.x - w, star.position.y - w, 2.0 * w), EmptySlots)
  }

  /**
   * The shape of every tree BuildQuadTree produces over stars in a universe of side w:
   * every dummy has four slots and a sector of positive side inside the universe; a dummy
   * in slot i of a dummy is non-empty and covers sub-square i of its parent; every star
   * below slot i is routed to i by its parent and, clamped to the universe, lies in
   * sub-square i.
   */
  ghost predicate Shaped(n: Node, stars: seq<Star>, w: real)
    decreases n, 0
  {
    match n
    case Nil => true
    case Leaf(k, sec) => k < |stars| && sec.width > 0.0
    case Dummy(_, sec, cs) =>
      |cs| == 4 && WithinRoot(sec, w) && forall i :: 0 <= i < 4 ==> SlotOk(sec, i, cs[i], stars, w)
  }

  ghost predicate SlotOk(sec: Quadrant, i: int, c: Node, stars: seq<Star>, w: real)
    decreases c, 1
  {
    && Shaped(c, stars, w)
    && (c.Dummy? ==> c.sector == FindNewQuad(sec, i) && Leaves(c) != [])
    && forall k :: k in Leaves(c) ==>
         && k < |stars|
         && WhichSubQuad(stars[k].position, sec) == i
         && InSquare(Clamp(stars[k].position, w), FindNewQuad(sec, i))
  }

  /** Every dummy still carries its placeholder star (true until the masses are aggregated). */
  ghost predicate Placeholders(n: Node)
    decreases n
  {
    match n
    case Nil => true
    case Leaf(_, _) => true
    case Dummy(s, sec, cs) => s == Placeholder(sec) && forall i :: 0 <= i < |cs| ==> Placeholders(cs[i])
  }

  /** No two leaves of the tree can be told apart by their clamped positions less than delta. */
  ghost predicate FarFromLeaves(n: Node, j: nat, stars: seq<Star>, w: real, delta: real)
    requires j < |stars|
  {
    forall k :: k in Leaves(n) ==>
      k < |stars| && Cheb(Clamp(stars[j].position, w), Clamp(stars[k].position, w)) >= delta
  }

  /** What the descent for star j needs at a dummy n. */
  ghost predicate CanInsert(n: Node, j: nat, stars: seq<Star>, w: real, delta: real)
  {
    && n.Dummy? && Shaped(n, stars, w) && Placeholders(n)
    && j < |stars| && InSquare(Clamp(stars[j].position, w), n.sector)
    && delta > 0.0 && FarFromLeaves(n, j, stars, w, delta)
  }

  lemma InChildLeaves(cs: seq<Node>, i: int, k: nat)
    requires 0 <= i < |cs| && k in Leaves(cs[i])
    ensures k in ChildLeaves(cs)
    decreases cs
  {
    if i > 0 {
      InChildLeaves(cs[1..], i - 1, k);
    }
  }

  /** A leaf of a dummy is a leaf of one of its slots. */
  lemma {:induction false} LeafInSomeSlot(cs: seq<Node>, k: nat) returns (i: int)
    requires k in ChildLeaves(cs)
    ensures 0 <= i < |cs| && k in Leaves(cs[i])
    decreases cs
  {
    if k in Leaves(cs[0]) {
      i := 0;
    } else {
      var i' := LeafInSomeSlot(cs[1..], k);
      i := i' + 1;
    }
  }

  /** Replacing slot q by c replaces the leaves of the old occupant by the leaves of c. */
  lemma {:induction false} ChildLeavesUpdate(cs: seq<Node>, q: int, c: Node)
    requires 0 <= q < |cs|
    ensures multiset(ChildLeaves(cs[q := c])) + multiset(Leaves(cs[q]))
         == multiset(ChildLeaves(cs)) + multiset(Leaves(c))
  {
    var pre, post := cs[..q], cs[q + 1..];
    assert cs == (pre + [cs[q]]) + post;
    assert cs[q := c] == (pre + [c]) + post;
    ChildLeavesAppend(pre + [cs[q]], post);
    ChildLeavesAppend(pre, [cs[q]]);
    ChildLeavesAppend(pre + [c], post);
    ChildLeavesAppend(pre, [c]);
    ChildLeavesSingle(cs[q]);
    ChildLeavesSingle(c);
  }

  /** The leaves of a concatenation of child lists are the leaves of the first list, then of the second. */
  lemma {:induction false} ChildLeavesAppend(a: seq<Node>, b: seq<Node>)
    ensures ChildLeaves(a + b) == ChildLeaves(a) + ChildLeaves(b)
    decreases a
  {
    if a == [] {
      assert a + b == b;
    } else {
      assert (a + b)[0] == a[0] && (a + b)[1..] == a[1..] + b;
      ChildLeavesAppend(a[1..], b);
    }
  }

  lemma ChildLeavesSingle(c: Node)
    ensures ChildLeaves([c]) == Leaves(c)
  {
    assert [c][1..] == [];
  }

  /** The measure of the descent: it drops by at least one per level while delta <= the child side. */
  lemma HalfMeasure(width: real, delta: real)
    requires delta > 0.0 && width / 2.0 >= delta
    ensures 0.0 <= width / delta
    ensures (width / 2.0) / delta <= width / delta - 1.0
  {
    var m := width / delta;
    var h := (width / 2.0) / delta;
    assert m * delta == width;
    assert h * delta == width / 2.0;
    ScaleBack(m, 2.0 * h, delta);
    AtLeastOne(h, delta);
  }

  lemma ScaleBack(a: real, b: real, d: real)
    requires d != 0.0 && a * d == b * d
    ensures a == b
  {
    assert (a - b) * d == 0.0;
  }

  lemma AtLeastOne(h: real, d: real)
    requires d > 0.0 && h * d >= d
    ensures h >= 1.0
  {
    assert (h - 1.0) * d >= 0.0;
  }

  /** Both star j and every leaf of slot q (q being j's route) lie in sub-square q, so delta fits in it. */
  lemma {:induction false} SlotSideAtLeastDelta(n: Node, j: nat, stars: seq<Star>, w: real, delta: real, k: nat)
    requires CanInsert(n, j, stars, w, delta)
    requires k in Leaves(n.children[WhichSubQuad(stars[j].position, n.sector)])
    ensures delta <= FindNewQuad(n.sector, WhichSubQuad(stars[j].position, n.sector)).width
  {
    var q := WhichSubQuad(stars[j].position, n.sector);
    var cj := Clamp(stars[j].position, w);
    assert SlotOk(n.sector, q, n.children[q], stars, w);
    ClampKeepsRoute(stars[j].position, n.sector, w);
    RoutedPointStaysInside(cj, n.sector);
    InChildLeaves(n.children, q, k);
    ChebWithinSquare(cj, Clamp(stars[k].position, w), FindNewQuad(n.sector, q));
  }

  /** Star j clamped lies in the sub-square it is routed to. */
  lemma {:induction false} RoutedStarInside(n: Node, j: nat, stars: seq<Star>, w: real, delta: real)
    requires CanInsert(n, j, stars, w, delta)
    ensures InSquare(Clamp(stars[j].position, w), FindNewQuad(n.sector, WhichSubQuad(stars[j].position, n.sector)))
  {
    ClampKeepsRoute(stars[j].position, n.sector, w);
    RoutedPointStaysInside(Clamp(stars[j].position, w), n.sector);
  }

  /** A sub-square of a square within the universe is within the universe. */
  lemma SubQuadWithinRoot(q: Quadrant, i: int, w: real)
    requires WithinRoot(q, w) && 0 <= i < 4
    ensures WithinRoot(FindNewQuad(q, i), w)
  {
  }

  /** Replacing slot q of a shaped dummy by a node that is fine for slot q keeps the dummy shaped. */
  lemma {:induction false} ShapedSlotUpdate(n: Node, q: int, c: Node, stars: seq<Star>, w: real)
    requires n.Dummy? && Shaped(n, stars, w) && 0 <= q < 4
    requires SlotOk(n.sector, q, c, stars, w)
    ensures Shaped(n.(children := n.children[q := c]), stars, w)
  {
    var cs := n.children[q := c];
    forall i | 0 <= i < 4
      ensures SlotOk(n.sector, i, cs[i], stars, w)
    {
      if i != q {
        assert SlotOk(n.sector, i, n.children[i], stars, w);
      }
    }
  }

  /** The dummy that replaces leaf next in slot q, with next re-hung below it. */
  function SplitLeaf(n: Node, q: int, next: Node, stars: seq<Star>): Node
    requires n.Dummy? && next.Leaf? && next.index < |stars|
  {
    var d := NewDummy(n.star, n.sector, q);
    d.(children := d.children[WhichSubQuad(stars[next.index].position, d.sector) := next])
  }

  /** A dummy whose only occupied slot holds c has the leaves of c. */
  lemma {:induction false} SingleSlotLeaves(s: Star, sec: Quadrant, i: int, c: Node)
    requires 0 <= i < 4
    ensures Leaves(Dummy(s, sec, EmptySlots[i := c])) == Leaves(c)
  {
    var cs := EmptySlots[i := c];
    assert ChildLeaves(cs[4..]) == [];
    assert ChildLeaves(cs[3..]) == Leaves(cs[3]) + ChildLeaves(cs[4..]);
    assert ChildLeaves(cs[2..]) == Leaves(cs[2]) + ChildLeaves(cs[3..]);
    assert ChildLeaves(cs[1..]) == Leaves(cs[1]) + ChildLeaves(cs[2..]);
    assert ChildLeaves(cs) == Leaves(cs[0]) + ChildLeaves(cs[1..]);
  }

  /** The dummy that replaces a leaf of a shaped placeholder tree is shaped, covers the leaf's sub-square and holds just that leaf. */
  lemma {:induction false} SplitLeafShaped(n: Node, q: int, stars: seq<Star>, w: real)
    requires n.Dummy? && Shaped(n, stars, w) && n.star == Placeholder(n.sector) && 0 <= q < 4
    requires n.children[q].Leaf?
    ensures n.children[q].index < |stars|
    ensures var d := SplitLeaf(n, q, n.children[q], stars);
            && Shaped(d, stars, w) && Placeholders(d)
            && d.sector == FindNewQuad(n.sector, q)
            && Leaves(d) == [n.children[q].index]
  {
    var next := n.children[q];
    var k := next.index;
    assert SlotOk(n.sector, q, next, stars, w);
    assert Leaves(next) == [k];
    var d0 := NewDummy(n.star, n.sector, q);
    assert d0.sector == FindNewQuad(n.sector, q);
    SubQuadWithinRoot(n.sector, q, w);
    var nq := WhichSubQuad(stars[k].position, d0.sector);
    var d := SplitLeaf(n, q, next, stars);
    assert d0.children == EmptySlots;
    assert d.children == EmptySlots[nq := next];
    SingleSlotLeaves(d.star, d.sector, nq, next);
    assert InSquare(Clamp(stars[k].position, w), d0.sector);
    assert SlotOk(d.sector, nq, next, stars, w) by {
      ClampKeepsRoute(stars[k].position, d0.sector, w);
      RoutedPointStaysInside(Clamp(stars[k].position, w), d0.sector);
    }
    forall i | 0 <= i < 4
      ensures SlotOk(d.sector, i, d.children[i], stars, w)
    {
      if i != nq {
        assert d.children[i] == Nil;
      }
    }
    assert Placeholders(d) by {
      forall i | 0 <= i < |d.children|
        ensures Placeholders(d.children[i])
      {
      }
    }
  }

  /** The split dummy is ready for the descent of j to continue in it. */
  lemma {:induction false} SplitLeafReady(n: Node, j: nat, stars: seq<Star>, w: real, delta: real)
    requires CanInsert(n, j, stars, w, delta)
    requires n.children[WhichSubQuad(stars[j].position, n.sector)].Leaf?
    ensures var q := WhichSubQuad(stars[j].position, n.sector);
            var next := n.children[q];
            && next.index < |stars|
            && var d := SplitLeaf(n, q, next, stars);
               && CanInsert(d, j, stars, w, delta)
               && d.sector == FindNewQuad(n.sector, q)
               && Leaves(d) == [next.index]
  {
    var q := WhichSubQuad(stars[j].position, n.sector);
    var next := n.children[q];
    SplitLeafShaped(n, q, stars, w);
    InChildLeaves(n.children, q, next.index);
    RoutedStarInside(n, j, stars, w, delta);
  }

  /**
   * Insertion of star j below dummy n, as the descent loop of BuildQuadTree performs it:
   * an empty slot receives a new leaf whose sector is the routed sub-square; a dummy in the
   * slot is descended into; a leaf in the slot is replaced by a new dummy, the leaf is hung
   * back below it where it is routed, and the descent continues in the new dummy.
   * delta is a lower bound on the clamped distance from j to every star already placed;
   * the side of the sector descended into halves each level and never drops below delta,
   * which bounds the descent.
   */
  ghost function Insert(n: Node, j: nat, stars: seq<Star>, w: real, delta: real): (r: Node)
    requires CanInsert(n, j, stars, w, delta)
    ensures r.Dummy? && r.sector == n.sector && r.star == n.star
    ensures Shaped(r, stars, w) && Placeholders(r)
    ensures multiset(Leaves(r)) == multiset(Leaves(n)) + multiset{j}
    decreases n.sector.width / delta, 1
  {
    var q := WhichSubQuad(stars[j].position, n.sector);
    if n.children[q] == Nil then
      var leaf := Leaf(j, FindNewQuad(n.sector, q));
      EmptySlotFilled(n, j, stars, w, delta);
      SlotReplaced(n, j, stars, w, delta, leaf);
      n.(children := n.children[q := leaf])
    else
      InsertBelow(n, j, stars, w, delta)
  }

  /** Insert when j's slot is occupied: descend into the dummy there, or split the leaf there first. */
  ghost function InsertBelow(n: Node, j: nat, stars: seq<Star>, w: real, delta: real): (r: Node)
    requires CanInsert(n, j, stars, w, delta)
    requires n.children[WhichSubQuad(stars[j].position, n.sector)] != Nil
    ensures r.Dummy? && r.sector == n.sector && r.star == n.star
    ensures Shaped(r, stars, w) && Placeholders(r)
    ensures multiset(Leaves(r)) == multiset(Leaves(n)) + multiset{j}
    decreases n.sector.width / delta, 0
  {
    var q := WhichSubQuad(stars[j].position, n.sector);
    var next := n.children[q];
    if next.Dummy? then
      DescentReady(n, j, stars, w, delta);
      var sub := Insert(next, j, stars, w, delta);
      SlotReplaced(n, j, stars, w, delta, sub);
      n.(children := n.children[q := sub])
    else
      SlotSideAtLeastDelta(n, j, stars, w, delta, next.index);
      HalfMeasure(n.sector.width, delta);
      SplitLeafReady(n, j, stars, w, delta);
      var sub := Insert(SplitLeaf(n, q, next, stars), j, stars, w, delta);
      SlotReplaced(n, j, stars, w, delta, sub);
      n.(children := n.children[q := sub])
  }

  /** The leaf for j that fills j's empty slot is fine for that slot. */
  lemma {:induction false} EmptySlotFilled(n: Node, j: nat, stars: seq<Star>, w: real, delta: real)
    requires CanInsert(n, j, stars, w, delta)
    ensures var q := WhichSubQuad(stars[j].position, n.sector);
            n.children[q] == Nil ==> SlotOk(n.sector, q, Leaf(j, FindNewQuad(n.sector, q)), stars, w)
  {
    RoutedStarInside(n, j, stars, w, delta);
  }

  /** A dummy in j's slot is ready for the descent, one level further down the measure. */
  lemma {:induction false} DescentReady(n: Node, j: nat, stars: seq<Star>, w: real, delta: real)
    requires CanInsert(n, j, stars, w, delta)
    requires n.children[WhichSubQuad(stars[j].position, n.sector)].Dummy?
    ensures var next := n.children[WhichSubQuad(stars[j].position, n.sector)];
            && CanInsert(next, j, stars, w, delta)
            && next.sector == FindNewQuad(n.sector, WhichSubQuad(stars[j].position, n.sector))
            && next.sector.width / delta <= n.sector.width / delta - 1.0
            && 0.0 <= n.sector.width / delta
  {
    var q := WhichSubQuad(stars[j].position, n.sector);
    var next := n.children[q];
    assert SlotOk(n.sector, q, next, stars, w);
    SlotSideAtLeastDelta(n, j, stars, w, delta, Leaves(next)[0]);
    HalfMeasure(n.sector.width, delta);
    RoutedStarInside(n, j, stars, w, delta);
    ChildPlaceholders(n, q);
    forall k | k in Leaves(next)
      ensures k < |stars| && Cheb(Clamp(stars[j].position, w), Clamp(stars[k].position, w)) >= delta
    {
      InChildLeaves(n.children, q, k);
    }
  }

  /**
   * Replacing j's slot by the occupant with j inserted keeps the dummy shaped and its
   * placeholders, and adds j to its leaves.
   */
  lemma {:induction false} SlotReplaced(n: Node, j: nat, stars: seq<Star>, w: real, delta: real, sub: Node)
    requires CanInsert(n, j, stars, w, delta)
    requires var q := WhichSubQuad(stars[j].position, n.sector);
             && (sub.Dummy? ==> Shaped(sub, stars, w) && sub.sector == FindNewQuad(n.sector, q))
             && (sub.Leaf? ==> SlotOk(n.sector, q, sub, stars, w))
             && Placeholders(sub)
             && multiset(Leaves(sub)) == multiset(Leaves(n.children[q])) + multiset{j}
    ensures var r := n.(children := n.children[WhichSubQuad(stars[j].position, n.sector) := sub]);
            && Shaped(r, stars, w) && Placeholders(r)
            && multiset(Leaves(r)) == multiset(Leaves(n)) + multiset{j}
  {
    var q := WhichSubQuad(stars[j].position, n.sector);
    if sub.Dummy? {
      InsertedSlotOk(n, j, stars, w, delta, sub);
    }
    ChildLeavesUpdate(n.children, q, sub);
    MultisetSwap(multiset(Leaves(n.(children := n.children[q := sub]))), multiset(Leaves(n.children[q])),
                 multiset(Leaves(n)), multiset(Leaves(sub)), j);
    ShapedSlotUpdate(n, q, sub, stars, w);
    PlaceholdersSlotUpdate(n, q, sub);
  }

  lemma MultisetSwap(a: multiset<nat>, b: multiset<nat>, c: multiset<nat>, d: multiset<nat>, j: nat)
    requires a + b == c + d && d == b + multiset{j}
    ensures a == c + multiset{j}
  {
    forall x
      ensures a[x] == (c + multiset{j})[x]
    {
      assert (a + b)[x] == (c + d)[x];
    }
  }

  /** A dummy's slots inherit its placeholders. */
  lemma ChildPlaceholders(n: Node, q: int)
    requires n.Dummy? && Placeholders(n) && 0 <= q < |n.children|
    ensures Placeholders(n.children[q])
  {
  }

  lemma {:induction false} PlaceholdersSlotUpdate(n: Node, q: int, c: Node)
    requires n.Dummy? && Placeholders(n) && Placeholders(c) && 0 <= q < |n.children|
    ensures Placeholders(n.(children := n.children[q := c]))
  {
    var cs := n.children[q := c];
    forall i | 0 <= i < |cs|
      ensures Placeholders(cs[i])
    {
      if i != q {
        ChildPlaceholders(n, i);
      }
    }
  }

  /**
   * The node that results from inserting j into what occupied j's slot is fine for that slot:
   * its leaves are the old occupant's leaves and j, all routed to the slot.
   */
  lemma {:induction false} InsertedSlotOk(n: Node, j: nat, stars: seq<Star>, w: real, delta: real, sub: Node)
    requires CanInsert(n, j, stars, w, delta)
    requires var q := WhichSubQuad(stars[j].position, n.sector);
             && sub.Dummy? && Shaped(sub, stars, w)
             && sub.sector == FindNewQuad(n.sector, q)
             && multiset(Leaves(sub)) == multiset(Leaves(n.children[q])) + multiset{j}
    ensures SlotOk(n.sector, WhichSubQuad(stars[j].position, n.sector), sub, stars, w)
  {
    var q := WhichSubQuad(stars[j].position, n.sector);
    assert SlotOk(n.sector, q, n.children[q], stars, w);
    RoutedStarInside(n, j, stars, w, delta);
    assert j in multiset(Leaves(sub));
    forall k | k in Leaves(sub)
      ensures k < |stars| && WhichSubQuad(stars[k].position, n.sector) == q
      ensures InSquare(Clamp(stars[k].position, w), FindNewQuad(n.sector, q))
    {
      assert k in multiset(Leaves(sub));
      if k != j {
        assert k in multiset(Leaves(n.children[q]));
        assert k in Leaves(n.children[q]);
      }
    }
  }
}
