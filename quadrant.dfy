/**
 * Square sectors of the quad tree and the arithmetic that routes a point into one of
 * their four sub-squares (whichSubQuad, findNewQuad and isInUniverse of quad-tree.go).
 */
module Quadrants {
  import opened Physics

  /** A square with lower-left corner (x, y) and side width. */
  datatype Quadrant = Quadrant(x: real, y: real, width: real)

  /** The four sub-square numbers: 0 = NW, 1 = NE, 2 = SW, 3 = SE. */
  const NW: int := 0
  const NE: int := 1
  const SW: int := 2
  const SE: int := 3

  function Centre(q: Quadrant): Vec
  {
    Vec(q.x + q.width / 2.0, q.y + q.width / 2.0)
  }

  /** p lies in the closed square q. */
  predicate InSquare(p: Vec, q: Quadrant)
  {
    q.x <= p.x <= q.x + q.width && q.y <= p.y <= q.y + q.width
  }

  /**
   * The sub-square of q that point p is routed to. Only points strictly above the centre
   * go north and only points strictly left of it go west: a point on a dividing line goes
   * south or east.
   */
  function WhichSubQuad(p: Vec, q: Quadrant): (i: int)
    ensures 0 <= i < 4
    ensures i < 2 <==> p.y > Centre(q).y
    ensures i % 2 == 0 <==> p.x < Centre(q).x
  {
    var c := Centre(q);
    if p.y > c.y then
      if p.x < c.x then NW else NE
    else
      if p.x < c.x then SW else SE
  }

  /**
   * Sub-square i of q: half the side, sharing q's corner on the side of i. For a number
   * outside 0..3 no case of the switch applies and the corner is (0, 0).
   */
  function FindNewQuad(q: Quadrant, i: int): (r: Quadrant)
    ensures r.width == q.width / 2.0
    ensures 0 <= i < 4 && q.width >= 0.0 ==>
              q.x <= r.x && r.x + r.width <= q.x + q.width &&
              q.y <= r.y && r.y + r.width <= q.y + q.width
    ensures !(0 <= i < 4) ==> r.x == 0.0 && r.y == 0.0
  {
    var h := q.width / 2.0;
    if i == NW then Quadrant(q.x, q.y + h, h)
    else if i == NE then Quadrant(q.x + h, q.y + h, h)
    else if i == SW then Quadrant(q.x, q.y, h)
    else if i == SE then Quadrant(q.x + h, q.y, h)
    else Quadrant(0.0, 0.0, h)
  }

  /** The four sub-squares of a square of positive side have pairwise distinct corners. */
  lemma SubQuadsDistinct(q: Quadrant, i: int, j: int)
    requires q.width > 0.0
    requires 0 <= i < 4 && 0 <= j < 4 && i != j
    ensures FindNewQuad(q, i) != FindNewQuad(q, j)
    ensures FindNewQuad(q, i).x != FindNewQuad(q, j).x || FindNewQuad(q, i).y != FindNewQuad(q, j).y
  {
  }

  /** The sub-square a point is routed to still contains it. */
  lemma RoutedPointStaysInside(p: Vec, q: Quadrant)
    requires InSquare(p, q)
    ensures InSquare(p, FindNewQuad(q, WhichSubQuad(p, q)))
  {
  }

  /** The bounding square of a universe of side w: corner (0, 0). */
  function RootSector(w: real): Quadrant
  {
    Quadrant(0.0, 0.0, w)
  }

  /**
   * Whether a star is still inside the universe (closed bounds): exactly the stars that
   * clamping to the bounding square leaves where they are.
   */
  predicate IsInUniverse(s: Star, u: Universe): (b: bool)
    ensures b <==> Clamp(s.position, u.width) == s.position
  {
    var p := s.position;
    p.x >= 0.0 && p.x <= u.width && p.y >= 0.0 && p.y <= u.width
  }

  /** q is a square of positive side lying within the bounding square of side w. */
  predicate WithinRoot(q: Quadrant, w: real)
  {
    q.width > 0.0 && 0.0 <= q.x && q.x + q.width <= w && 0.0 <= q.y && q.y + q.width <= w
  }

  function ClampTo(v: real, w: real): real
  {
    if v < 0.0 then 0.0 else if v > w then w else v
  }

  /** p moved to the nearest point of the bounding square of side w. */
  function Clamp(p: Vec, w: real): Vec
  {
    Vec(ClampTo(p.x, w), ClampTo(p.y, w))
  }

  /** Clamping moves exactly the stars that are outside the universe. */
  lemma {:induction false} ClampFixesExactlyTheUniverse(s: Star, u: Universe)
    requires u.width >= 0.0
    ensures IsInUniverse(s, u) <==> Clamp(s.position, u.width) == s.position
    ensures IsInUniverse(s, u) <==> InSquare(s.position, RootSector(u.width))
    ensures InSquare(Clamp(s.position, u.width), RootSector(u.width))
  {
  }

  /**
   * Inside the bounding square, a point is routed exactly as its clamped image is: every
   * dividing line of a sub-square lies strictly inside the bounding square. Hence two
   * stars with the same clamped position are never separated by any number of splits.
   */
  lemma {:induction false} ClampKeepsRoute(p: Vec, q: Quadrant, w: real)
    requires WithinRoot(q, w)
    ensures WhichSubQuad(Clamp(p, w), q) == WhichSubQuad(p, q)
  {
    var c := Centre(q);
    assert 0.0 < c.x < w && 0.0 < c.y < w;
  }

  /** Chebyshev distance: the larger of the two coordinate differences. */
  function Cheb(a: Vec, b: Vec): (r: real)
    ensures r >= 0.0
    ensures r == 0.0 <==> a == b
  {
    var dx := if a.x >= b.x then a.x - b.x else b.x - a.x;
    var dy := if a.y >= b.y then a.y - b.y else b.y - a.y;
    if dx >= dy then dx else dy
  }

  /** Two points of one closed square are at most its side apart. */
  lemma ChebWithinSquare(a: Vec, b: Vec, q: Quadrant)
    requires InSquare(a, q) && InSquare(b, q)
    ensures Cheb(a, b) <= q.width
  {
  }
}
