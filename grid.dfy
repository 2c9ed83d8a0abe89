/** Tile-grid arithmetic shared by the player controller, the ghosts and the map loader.
    The world spans [-1, 1] on both axes; a tile is `size` wide on an axis. */
module Grid {

  /** One maze cell: column `x`, row `y` (row 0 is the first map line). */
  datatype Tile = Tile(x: int, y: int)

  /** The four travel directions. Every other character, in particular ' ', means "no direction". */
  predicate IsDir(c: char)
  {
    c == 'U' || c == 'D' || c == 'L' || c == 'R'
  }

  /** Ghost::getOppositeDirection on a direction character: U and D swap, L and R swap,
      anything else gives the neutral ' '. */
  function Opposite(c: char): (r: char)
    ensures IsDir(c) <==> IsDir(r)
    ensures IsDir(c) ==> r != c
    ensures !IsDir(c) ==> r == ' '
  {
    match c
    case 'U' => 'D'
    case 'D' => 'U'
    case 'L' => 'R'
    case 'R' => 'L'
    case _ => ' '
  }

  lemma OppositeInvolution(c: char)
    requires IsDir(c)
    ensures Opposite(Opposite(c)) == c
  {
  }

  /** The neighbour one tile away in direction `c` (U is row - 1, D is row + 1). The switch
      statements in the source have no default, so any other character stays on `t`. */
  function StepTile(t: Tile, c: char): (r: Tile)
    ensures !IsDir(c) ==> r == t
    ensures IsDir(c) ==> r != t && (r.x == t.x || r.y == t.y)
    ensures c == 'U' || c == 'D' ==> r.x == t.x && r.y - t.y == (if c == 'U' then -1 else 1)
    ensures c == 'L' || c == 'R' ==> r.y == t.y && r.x - t.x == (if c == 'L' then -1 else 1)
  {
    match c
    case 'U' => Tile(t.x, t.y - 1)
    case 'D' => Tile(t.x, t.y + 1)
    case 'L' => Tile(t.x - 1, t.y)
    case 'R' => Tile(t.x + 1, t.y)
    case _ => t
  }

  /** The point `dist` further along direction `dir` (U is up, so y decreases). The switch
      statements in the source have no default, so any other character stays put. */
  function Moved(x: real, y: real, dir: char, dist: real): (p: (real, real))
    ensures !IsDir(dir) ==> p == (x, y)
    ensures dir == 'U' || dir == 'D' ==> p.0 == x && (if dir == 'U' then y - p.1 else p.1 - y) == dist
    ensures dir == 'L' || dir == 'R' ==> p.1 == y && (if dir == 'L' then x - p.0 else p.0 - x) == dist
  {
    match dir
    case 'U' => (x, y - dist)
    case 'D' => (x, y + dist)
    case 'L' => (x - dist, y)
    case 'R' => (x + dist, y)
    case _ => (x, y)
  }

  function Abs(v: real): (r: real)
    ensures r >= 0.0 && (r == v || r == -v)
  {
    if v < 0.0 then -v else v
  }

  /** Stepping one way and then the opposite way returns to the start tile. */
  lemma StepThenBack(t: Tile, c: char)
    requires IsDir(c)
    ensures StepTile(StepTile(t, c), Opposite(c)) == t
  {
  }

  /** C++ `static_cast<int>` of a float: truncation toward zero (floor for non-negative values). */
  function Trunc(v: real): (r: int)
    ensures v >= 0.0 ==> r >= 0 && r as real <= v < r as real + 1.0
    ensures v < 0.0 ==> r <= 0 && r as real - 1.0 < v <= r as real
  {
    if v >= 0.0 then v.Floor else -((-v).Floor)
  }

  /** The tile index of coordinate `pos` on an axis whose tiles are `size` wide
      (World::getTileFromPosition, one axis). */
  function TileIndex(pos: real, size: real): (i: int)
    requires size > 0.0
    ensures pos >= -1.0 ==> i >= 0 && -1.0 + i as real * size <= pos < -1.0 + (i + 1) as real * size
  {
    var shifted := (pos + 1.0) / size;
    assert pos >= -1.0 ==> Trunc(shifted) as real * size <= pos + 1.0 < (Trunc(shifted) + 1) as real * size by {
      if pos >= -1.0 {
        DivBounds(pos + 1.0, size, Trunc(shifted));
      }
    }
    Trunc(shifted)
  }

  lemma DivBounds(a: real, size: real, i: int)
    requires size > 0.0
    requires a >= 0.0 && i as real <= a / size < i as real + 1.0
    ensures i as real * size <= a < (i + 1) as real * size
  {
    var q := a / size;
    assert q * size == a;
    assert i as real * size <= q * size;
    var d := i as real + 1.0 - q;
    assert d > 0.0;
    assert d * size > 0.0;
    assert (i + 1) as real == q + d;
    assert (q + d) * size == q * size + d * size;
    assert a < (q + d) * size;
    assert a < ((i + 1) as real) * size;
  }

  /** The centre of tile `i` on an axis whose tiles are `size` wide (World::getPositionFromTile). */
  function TileCentre(i: int, size: real): (c: real)
  {
    -1.0 + i as real * size + size / 2.0
  }

  /** The centre of the tile containing `pos` (getGridCenter in Ghost.cpp and
      getCenteredPosition in World.cpp): it lies within half a tile of `pos`. */
  function GridCenter(pos: real, size: real): (c: real)
    requires size > 0.0
    ensures pos >= -1.0 ==> c - size / 2.0 <= pos < c + size / 2.0
  {
    TileCentre(TileIndex(pos, size), size)
  }

  /** Converting a tile to its centre and back gives the tile again, for every tile index >= 0. */
  lemma CentreRoundTrip(i: int, size: real)
    requires size > 0.0 && i >= 0
    ensures TileIndex(TileCentre(i, size), size) == i
  {
    var shifted := (TileCentre(i, size) + 1.0) / size;
    assert TileCentre(i, size) + 1.0 == (i as real + 0.5) * size;
    var k := i as real + 0.5;
    assert shifted * size == k * size;
    assert (shifted - k) * size == 0.0;
    assert shifted == k;
  }

  /** The game's wall test on two tile centres: closer than `tol` tile WIDTHS on both axes
      (tol is 0.3 in World::isTileWall and 0.25 in World::checkGhostWallCollision). */
  predicate NearCentres(a: Tile, b: Tile, w: real, h: real, tol: real)
  {
    Abs(TileCentre(a.x, w) - TileCentre(b.x, w)) < tol * w &&
    Abs(TileCentre(a.y, h) - TileCentre(b.y, h)) < tol * w
  }

  /** The offset between two tile centres is the tile offset times the tile size. */
  lemma CentreOffset(i: int, j: int, size: real)
    ensures TileCentre(i, size) - TileCentre(j, size) == (i - j) as real * size
  {
  }

  /** Whenever a tile is at least `tol` widths high, the tolerance test matches exactly the
      same tile, so it is tile equality. */
  lemma ToleranceIsSameTile(a: Tile, b: Tile, w: real, h: real, tol: real)
    requires w > 0.0 && h > 0.0 && 0.0 < tol <= 1.0 && tol * w <= h
    ensures NearCentres(a, b, w, h, tol) <==> a == b
  {
    CentreOffset(a.x, b.x, w);
    CentreOffset(a.y, b.y, h);
    assert 0.0 < tol * w <= 1.0 * w;
    if a.x != b.x {
      ApartByOneTile(a.x - b.x, w, tol * w);
    }
    if a.y != b.y {
      ApartByOneTile(a.y - b.y, h, tol * w);
    }
  }

  /** Centres of different tiles lie at least one tile apart. */
  lemma ApartByOneTile(k: int, size: real, bound: real)
    requires k != 0 && size > 0.0 && bound <= size
    ensures Abs(k as real * size) >= bound
  {
    if k > 0 {
      assert (k - 1) as real * size >= 0.0;
    } else {
      assert (-k - 1) as real * size >= 0.0;
    }
  }

  /** On a map whose tiles are lower than `tol` widths, the test also matches the tile one row
      down: a wall there is taken for a wall on this tile. */
  lemma ToleranceTooWide(a: Tile, w: real, h: real, tol: real)
    requires w > 0.0 && h > 0.0 && tol * w > h
    ensures NearCentres(a, Tile(a.x, a.y + 1), w, h, tol)
  {
    CentreOffset(a.y, a.y + 1, h);
  }

  /** In terms of the map: tiles are 2/columns wide and 2/lines high, so the test is tile
      equality exactly when lines * tol <= columns. */
  lemma MapToleranceIsSameTile(cols: nat, rows: nat, tol: real)
    requires cols > 0 && rows > 0 && tol > 0.0
    ensures tol * (2.0 / cols as real) <= 2.0 / rows as real <==> tol * rows as real <= cols as real
  {
    var c := cols as real;
    var r := rows as real;
    assert tol * (2.0 / c) * (c * r) == 2.0 * tol * r;
    assert (2.0 / r) * (c * r) == 2.0 * c;
    assert c * r > 0.0;
    if tol * (2.0 / c) <= 2.0 / r {
      assert tol * (2.0 / c) * (c * r) <= (2.0 / r) * (c * r);
    }
    if tol * r <= c {
      assert tol * (2.0 / c) * (c * r) <= (2.0 / r) * (c * r);
    }
  }

  /** The tile holding a position, both axes at once (World::getTileFromPosition). */
  function TileAt(x: real, y: real, w: real, h: real): Tile
    requires w > 0.0 && h > 0.0
  {
    Tile(TileIndex(x, w), TileIndex(y, h))
  }
}
