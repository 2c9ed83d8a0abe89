/** The player's tile-based movement controller (World::updatePacmanTileBased): the logical
    position is a tile plus the progress towards the next tile; input waits in a one-slot buffer;
    turns happen at a tile centre, reversals at once; the drawn position is interpolated. */
module TileMotion {
  import opened Grid
  import opened Player

  const TilesPerSecond: real := 5.0
  /** The "no key pressed" input. */
  const NoInput: char := '\0'

  /** The controller's own state: the current tile, the progress (0 at its centre) towards the
      next tile in direction `dir`, and the buffered input. */
  datatype Motion = Motion(tile: Tile, progress: real, dir: char, buffered: char)

  /** The controller together with the Pacman entity it drives. */
  datatype Control = Control(motion: Motion, pac: PacmanValue)

  /** A standing start on `t`, as set by initializeLevel and resetPositions. */
  function StandingAt(t: Tile): (m: Motion)
    ensures m.tile == t && m.progress == 0.0 && m.dir == ' ' && m.buffered == ' '
  {
    Motion(t, 0.0, ' ', ' ')
  }

  /** Whether a tile holds a wall (World::isTileWall; a wall is matched by its tile). */
  predicate IsWall(walls: seq<Tile>, t: Tile)
  {
    t in walls
  }

  /** Step 1: any key other than "none" and ' ' overwrites the buffer. */
  function Latch(c: Control, input: char): Control
  {
    if input != NoInput && input != ' ' then c.(motion := c.motion.(buffered := input)) else c
  }

  /** Step 3's test: moving, part-way to the next tile, with the exact opposite key buffered. */
  predicate ReversalApplies(m: Motion)
  {
    m.buffered != ' ' && m.dir != ' ' && m.progress > 0.0 &&
    ((m.dir == 'U' && m.buffered == 'D') || (m.dir == 'D' && m.buffered == 'U') ||
     (m.dir == 'L' && m.buffered == 'R') || (m.dir == 'R' && m.buffered == 'L'))
  }

  /** Step 3: the next tile becomes the current one, the direction flips, the buffer empties and
      the progress is mirrored. */
  function Reverse(c: Control): Control
  {
    var m := c.motion;
    var r := m.(tile := StepTile(m.tile, m.dir), dir := m.buffered, buffered := ' ', progress := 1.0 - m.progress);
    Control(r, Directed(c.pac, r.dir))
  }

  /** Step 4, first half: at a centre, a buffered key other than the current direction is taken
      (and the buffer emptied) when its target tile is not a wall. */
  function Turn(c: Control, walls: seq<Tile>): Control
  {
    var m := c.motion;
    if m.buffered != ' ' && m.buffered != m.dir && !IsWall(walls, StepTile(m.tile, m.buffered)) then
      Control(m.(dir := m.buffered, buffered := ' '), Directed(c.pac, m.buffered))
    else c
  }

  /** Step 4, second half: a direction whose target tile is a wall is dropped. */
  function Stop(c: Control, walls: seq<Tile>): Control
  {
    var m := c.motion;
    if m.dir != ' ' && IsWall(walls, StepTile(m.tile, m.dir)) then
      Control(m.(dir := ' '), WithMoving(Directed(c.pac, ' '), false))
    else c
  }

  /** Steps 3 and 4: a reversal, or at a centre a turn and a wall check, or nothing. */
  function Steer(c: Control, walls: seq<Tile>): Control
  {
    if ReversalApplies(c.motion) then Reverse(c)
    else if c.motion.progress == 0.0 then Stop(Turn(c, walls), walls)
    else c
  }

  /** Step 5: with a direction, progress grows by five tiles a second; on reaching 1 the next tile
      becomes current and the progress restarts at 0, dropping any excess. */
  function Advance(c: Control, dt: real): Control
  {
    var m := c.motion;
    if m.dir != ' ' then
      var p := m.progress + TilesPerSecond * dt;
      var r := if p >= 1.0 then m.(tile := StepTile(m.tile, m.dir), progress := 0.0) else m.(progress := p);
      Control(r, WithMoving(c.pac, true))
    else Control(m, WithMoving(c.pac, false))
  }

  /** Step 6: the drawn position, the tile centre moved `progress` of the way towards the next
      tile's centre while moving (World::getPositionFromTile for both centres). */
  function Render(m: Motion, w: real, h: real): (p: (real, real))
  {
    var cx := TileCentre(m.tile.x, w);
    var cy := TileCentre(m.tile.y, h);
    if m.dir != ' ' && m.progress > 0.0 then
      var n := StepTile(m.tile, m.dir);
      (cx + (TileCentre(n.x, w) - cx) * m.progress, cy + (TileCentre(n.y, h) - cy) * m.progress)
    else (cx, cy)
  }

  /** World::updatePacmanTileBased for one frame of length `dt` on tiles `w` by `h`. */
  function TileStep(c: Control, walls: seq<Tile>, dt: real, input: char, w: real, h: real): (r: Control)
    ensures r.pac.moving == (r.motion.dir != ' ')
    ensures r.pac.x == Render(r.motion, w, h).0 && r.pac.y == Render(r.motion, w, h).1
  {
    var a := Advance(Steer(Latch(c, input), walls), dt);
    var p := Render(a.motion, w, h);
    a.(pac := a.pac.(x := p.0, y := p.1))
  }

  /** The controller's invariant: the progress lies in [0, 1), the current tile is open, and while
      part-way between tiles there is a direction and it leads to an open tile. */
  predicate Inv(m: Motion, walls: seq<Tile>)
  {
    0.0 <= m.progress < 1.0 && !IsWall(walls, m.tile) &&
    (m.progress > 0.0 ==> m.dir != ' ' && !IsWall(walls, StepTile(m.tile, m.dir)))
  }

  lemma StandingStartIsValid(t: Tile, walls: seq<Tile>)
    requires !IsWall(walls, t)
    ensures Inv(StandingAt(t), walls)
  {
  }

  /** Every frame keeps the invariant, whatever the key. */
  lemma TileStepKeepsInv(c: Control, walls: seq<Tile>, dt: real, input: char, w: real, h: real)
    requires Inv(c.motion, walls) && dt >= 0.0
    ensures Inv(TileStep(c, walls, dt, input, w, h).motion, walls)
  {
    var l := Latch(c, input);
    var s := Steer(l, walls);
    if ReversalApplies(l.motion) {
      StepThenBack(l.motion.tile, l.motion.dir);
      assert s.motion.dir == Opposite(l.motion.dir);
      assert StepTile(s.motion.tile, s.motion.dir) == l.motion.tile;
    }
    assert Inv(s.motion, walls) || (s.motion.progress == 0.0 && !IsWall(walls, s.motion.tile) &&
      (s.motion.dir != ' ' ==> !IsWall(walls, StepTile(s.motion.tile, s.motion.dir))));
  }

  /** At a centre (and with no reversal possible), the steering step takes the buffered key
      exactly when it differs from the direction and its target is open, and keeps the direction
      only while its target is open: afterwards the direction is ' ' or leads to an open tile. */
  lemma CentreSteering(c: Control, walls: seq<Tile>)
    requires c.motion.progress == 0.0
    ensures var m := c.motion;
      var r := Steer(c, walls).motion;
      var takes := m.buffered != ' ' && m.buffered != m.dir && !IsWall(walls, StepTile(m.tile, m.buffered));
      r.tile == m.tile && r.progress == 0.0 &&
      (takes ==> r.dir == m.buffered && r.buffered == ' ') &&
      (!takes ==> r.buffered == m.buffered && (r.dir == m.dir || r.dir == ' ')) &&
      (r.dir != ' ' ==> !IsWall(walls, StepTile(m.tile, r.dir))) &&
      (m.dir != ' ' && !takes && !IsWall(walls, StepTile(m.tile, m.dir)) ==> r.dir == m.dir) &&
      (m.dir != ' ' && !takes && IsWall(walls, StepTile(m.tile, m.dir)) ==> r.dir == ' ')
  {
  }

  /** An instant reversal: one step on in the old direction, the direction flipped, the buffer
      emptied and the progress mirrored, and the drawn position does not move. */
  lemma ReversalKeepsPosition(c: Control, walls: seq<Tile>, w: real, h: real)
    requires ReversalApplies(c.motion) && c.motion.progress <= 1.0
    ensures var m := c.motion;
      var r := Steer(c, walls).motion;
      r.tile == StepTile(m.tile, m.dir) && r.dir == Opposite(m.dir) && r.buffered == ' ' &&
      r.progress == 1.0 - m.progress &&
      Render(r, w, h).0 == Render(m, w, h).0 && Render(r, w, h).1 == Render(m, w, h).1
  {
    var m := c.motion;
    var r := Steer(c, walls).motion;
    StepThenBack(m.tile, m.dir);
    var n := StepTile(m.tile, m.dir);
    var cx, cy := TileCentre(m.tile.x, w), TileCentre(m.tile.y, h);
    var nx, ny := TileCentre(n.x, w), TileCentre(n.y, h);
    var p := m.progress;
    assert r.tile == n && r.dir == Opposite(m.dir) && r.progress == 1.0 - p;
    assert StepTile(r.tile, r.dir) == m.tile;
    assert Render(m, w, h).0 == cx + (nx - cx) * p && Render(m, w, h).1 == cy + (ny - cy) * p;
    if r.progress > 0.0 {
      assert Render(r, w, h).0 == nx + (cx - nx) * (1.0 - p) && Render(r, w, h).1 == ny + (cy - ny) * (1.0 - p);
      assert (cx - nx) * (1.0 - p) == (cx - nx) - (cx - nx) * p;
      assert (cy - ny) * (1.0 - p) == (cy - ny) - (cy - ny) * p;
      assert (cx - nx) * p == -((nx - cx) * p);
      assert (cy - ny) * p == -((ny - cy) * p);
    } else {
      assert p == 1.0;
    }
  }

  /** Away from a centre and without a reversal key, the controller only advances: progress grows
      by 5·dt, and on reaching 1 the tile steps once and the progress restarts at exactly 0. */
  lemma FreeRunning(c: Control, walls: seq<Tile>, dt: real, w: real, h: real)
    requires Inv(c.motion, walls) && c.motion.progress > 0.0 && !ReversalApplies(c.motion)
    ensures var m := c.motion;
      var r := TileStep(c, walls, dt, NoInput, w, h).motion;
      var p := m.progress + TilesPerSecond * dt;
      r.dir == m.dir && r.buffered == m.buffered &&
      (p < 1.0 ==> r.tile == m.tile && r.progress == p) &&
      (p >= 1.0 ==> r.tile == StepTile(m.tile, m.dir) && r.progress == 0.0)
  {
  }

  /** Standing still the player is drawn at the tile centre; moving, on the segment between the
      current and the next tile centre, changing only the coordinate of the travel axis. */
  lemma RenderBetweenCentres(m: Motion, w: real, h: real)
    requires 0.0 <= m.progress <= 1.0
    ensures var cx, cy := TileCentre(m.tile.x, w), TileCentre(m.tile.y, h);
      var n := StepTile(m.tile, m.dir);
      var nx, ny := TileCentre(n.x, w), TileCentre(n.y, h);
      var p := Render(m, w, h);
      (m.dir == ' ' || m.progress == 0.0 ==> p.0 == cx && p.1 == cy) &&
      (Entities.Min(cx, nx) <= p.0 <= Entities.Max(cx, nx)) &&
      (Entities.Min(cy, ny) <= p.1 <= Entities.Max(cy, ny)) &&
      (m.dir == 'U' || m.dir == 'D' ==> p.0 == cx) &&
      (m.dir == 'L' || m.dir == 'R' ==> p.1 == cy)
  {
    var cx, cy := TileCentre(m.tile.x, w), TileCentre(m.tile.y, h);
    var n := StepTile(m.tile, m.dir);
    var nx, ny := TileCentre(n.x, w), TileCentre(n.y, h);
    if m.dir != ' ' && m.progress > 0.0 {
      LerpBetween(cx, nx, m.progress);
      LerpBetween(cy, ny, m.progress);
    }
  }

  lemma LerpBetween(a: real, b: real, t: real)
    requires 0.0 <= t <= 1.0
    ensures Entities.Min(a, b) <= a + (b - a) * t <= Entities.Max(a, b)
  {
    if a <= b {
      MulNonNegative(b - a, t);
      MulNonNegative(b - a, 1.0 - t);
      assert (b - a) * (1.0 - t) == (b - a) - (b - a) * t;
    } else {
      MulNonNegative(a - b, t);
      MulNonNegative(a - b, 1.0 - t);
      assert (a - b) * (1.0 - t) == (a - b) - (a - b) * t;
      assert (b - a) * t == -((a - b) * t);
    }
  }

  lemma MulNonNegative(x: real, y: real)
    requires x >= 0.0 && y >= 0.0
    ensures x * y >= 0.0
  {
  }

  /** With legal keys only, the entity's direction follows the controller's: if they agree before
      a frame (and the player is alive), they agree after it. */
  lemma DirectionStaysInSync(c: Control, walls: seq<Tile>, dt: real, input: char, w: real, h: real)
    requires !c.pac.dying && c.pac.direction == c.motion.dir
    requires c.motion.dir == ' ' || IsDir(c.motion.dir)
    requires c.motion.buffered == ' ' || IsDir(c.motion.buffered)
    requires input == NoInput || input == ' ' || IsDir(input)
    ensures var r := TileStep(c, walls, dt, input, w, h);
      r.pac.direction == r.motion.dir && (r.motion.dir == ' ' || IsDir(r.motion.dir)) &&
      (r.motion.buffered == ' ' || IsDir(r.motion.buffered)) && !r.pac.dying
  {
  }
}
