/** The entity base of every actor: a box in normalized world coordinates, the tolerant
    intersection test, and the default answers of the polymorphic query surface. */
module Entities {

  /** A box centred on (x, y) with full width and height. */
  datatype Box = Box(x: real, y: real, width: real, height: real)
  {
    function Left(): real { x - width / 2.0 }
    function Right(): real { x + width / 2.0 }
    function Top(): real { y - height / 2.0 }
    function Bottom(): real { y + height / 2.0 }
  }

  /** Tolerance of Entity::intersects: each edge is pulled in by this much. */
  const Epsilon: real := 0.008

  function Min(a: real, b: real): real { if a <= b then a else b }
  function Max(a: real, b: real): real { if a >= b then a else b }

  /** Length of the common part of the intervals [lo1, hi1] and [lo2, hi2] (negative when apart). */
  function Overlap(lo1: real, hi1: real, lo2: real, hi2: real): real
  {
    Min(hi1, hi2) - Max(lo1, lo2)
  }

  /** Both sides of the box are longer than the tolerance. */
  predicate Substantial(b: Box)
  {
    b.width > Epsilon && b.height > Epsilon
  }

  /** Entity::intersects. For boxes larger than the tolerance it holds exactly when the
      boxes overlap by more than the tolerance on both axes. */
  function Intersects(a: Box, b: Box): (r: bool)
    ensures a.Right() == b.Left() || a.Bottom() == b.Top() ==> !r
    ensures Substantial(a) && Substantial(b) ==>
      (r <==> (Overlap(a.Left(), a.Right(), b.Left(), b.Right()) > Epsilon &&
               Overlap(a.Top(), a.Bottom(), b.Top(), b.Bottom()) > Epsilon))
  {
    !(a.Right() <= b.Left() + Epsilon || a.Left() >= b.Right() - Epsilon ||
      a.Bottom() <= b.Top() + Epsilon || a.Top() >= b.Bottom() - Epsilon)
  }

  /** The test does not depend on which entity asks. */
  lemma IntersectsSymmetric(a: Box, b: Box)
    ensures Intersects(a, b) == Intersects(b, a)
  {
  }

  /** A box larger than the tolerance intersects itself (and so every identical box). */
  lemma IntersectsItself(a: Box)
    requires Substantial(a)
    ensures Intersects(a, a)
  {
  }

  /** The collector's box at half its size (World::intersectsPickup). */
  function Shrunk(b: Box): (s: Box)
    ensures s.x == b.x && s.y == b.y && s.width == b.width * 0.5 && s.height == b.height * 0.5
  {
    Box(b.x, b.y, b.width * 0.5, b.height * 0.5)
  }

  /** World::intersectsPickup: the collector's box shrunk to half size overlaps the pickup's box,
      with no tolerance. For boxes of positive size this is a positive overlap on both axes. */
  function IntersectsPickup(entity: Box, pickup: Box): (r: bool)
    ensures entity.width > 0.0 && entity.height > 0.0 && pickup.width > 0.0 && pickup.height > 0.0 ==>
      (r <==> (Overlap(Shrunk(entity).Left(), Shrunk(entity).Right(), pickup.Left(), pickup.Right()) > 0.0 &&
               Overlap(Shrunk(entity).Top(), Shrunk(entity).Bottom(), pickup.Top(), pickup.Bottom()) > 0.0))
  {
    var s := Shrunk(entity);
    !(s.Right() <= pickup.Left() || s.Left() >= pickup.Right() ||
      s.Bottom() <= pickup.Top() || s.Top() >= pickup.Bottom())
  }

  /** Two boxes of one tile's size, centred `k` whole tiles apart on the x axis and `m` on the
      y axis, meet in the pickup test exactly when they sit on the same tile: the half-size
      collector box never reaches into a neighbouring tile. */
  lemma {:induction false} PickupOnlyOnSameTile(e: Box, p: Box, k: int, m: int)
    requires e.width > 0.0 && e.height > 0.0
    requires p.width == e.width && p.height == e.height
    requires p.x == e.x + k as real * e.width && p.y == e.y + m as real * e.height
    ensures IntersectsPickup(e, p) <==> k == 0 && m == 0
  {
    var s := Shrunk(e);
    assert s.Right() == e.x + e.width / 4.0 && s.Left() == e.x - e.width / 4.0;
    assert s.Bottom() == e.y + e.height / 4.0 && s.Top() == e.y - e.height / 4.0;
    ApartOnAxis(e.x, p.x, e.width, k);
    ApartOnAxis(e.y, p.y, e.height, m);
  }

  /** On one axis: a quarter-size reach from centre `c` stops short of the half-size extent of a
      box centred `k` whole sizes away, unless `k` is zero. */
  lemma ApartOnAxis(c: real, d: real, size: real, k: int)
    requires size > 0.0 && d == c + k as real * size
    ensures k >= 1 ==> c + size / 4.0 <= d - size / 2.0
    ensures k <= -1 ==> c - size / 4.0 >= d + size / 2.0
    ensures k == 0 ==> c + size / 4.0 > d - size / 2.0 && c - size / 4.0 < d + size / 2.0
  {
    if k >= 1 {
      assert k as real * size >= size;
    } else if k <= -1 {
      assert k as real * size <= -size;
    }
  }

  /** The polymorphic query surface of an entity, read by the presentation layer. */
  datatype Query = Query(direction: char, moving: bool, stateInt: int, stateTimer: real,
                         spriteId: int, dying: bool, lives: int)

  /** The answers of an entity that overrides nothing (walls, coins, fruits). */
  const DefaultQuery: Query := Query(' ', false, -1, 0.0, -1, false, 0)

  /** The entity base class: position and size, both changed in place. */
  class Entity {
    var x: real
    var y: real
    var width: real
    var height: real

    constructor (x0: real, y0: real, w: real, h: real)
      ensures x == x0 && y == y0 && width == w && height == h
    {
      x, y, width, height := x0, y0, w, h;
    }

    function Bounds(): (b: Box)
      reads this
    {
      Box(x, y, width, height)
    }

    /** Entity::setPosition: moves the entity and nothing else. */
    method SetPosition(newX: real, newY: real)
      modifies this
      ensures x == newX && y == newY
      ensures width == old(width) && height == old(height)
    {
      x, y := newX, newY;
    }

    /** Entity::setSize: resizes the entity and nothing else. */
    method SetSize(w: real, h: real)
      modifies this
      ensures width == w && height == h
      ensures x == old(x) && y == old(y)
    {
      width, height := w, h;
    }

    /** Entity::intersects between two entities. */
    predicate IntersectsEntity(other: Entity)
      reads this, other
    {
      Intersects(Bounds(), other.Bounds())
    }

    /** The base-class answers of the query surface: nothing overridden. */
    function Ask(): (q: Query)
      ensures q.direction == ' ' && !q.moving && q.stateInt == -1 && q.stateTimer == 0.0
      ensures q.spriteId == -1 && !q.dying && q.lives == 0
    {
      DefaultQuery
    }
  }
}
