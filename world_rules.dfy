/** The rules of the game world (Logic/World.cpp) as functions on a value of the whole world:
    loading a level, resetting after a death, moving to the next level, and one frame of play. */
module WorldRules {
  import opened Grid
  import opened Randomness
  import opened GhostAI
  import opened Ghosts
  import opened Player
  import TileMotion
  import LevelMap
  import Scoring
  import Entities

  /** Seconds of fear a fruit gives every ghost. */
  const FruitFearDuration: real := 5.0
  /** Fraction of the default ghost speed added per level after the first. */
  const SpeedStep: real := 0.15

  /** Every field of the world that the game logic reads or writes. */
  datatype WorldValue = WorldValue(
    level: int,
    pac: LevelMap.Option<PacmanValue>,
    ghosts: seq<GhostValue>,
    coins: seq<Entities.Box>,
    fruits: seq<Entities.Box>,
    walls: seq<Tile>,
    tileW: real, tileH: real,
    score: Scoring.ScoreValue,
    inFruitMode: bool, waitingToRestart: bool, gameStarted: bool,
    motion: TileMotion.Motion)

  /** The world as its constructor leaves it before the map is read. */
  const Fresh: WorldValue :=
    WorldValue(1, LevelMap.None, [], [], [], [], 0.0, 0.0, Scoring.Initial, false, false, false,
               TileMotion.StandingAt(Tile(0, 0)))

  /** A ghost the world can update: a box of positive size, running at its state's speed. */
  predicate GhostOk(g: GhostValue)
  {
    g.width > 0.0 && g.height > 0.0 && SpeedConsistent(g)
  }

  /** What every operation of the world keeps: a positive tile size, a non-negative ghost
      combo, and well-formed ghosts. */
  predicate Valid(w: WorldValue)
  {
    w.tileW > 0.0 && w.tileH > 0.0 && w.score.combo >= 0 &&
    forall j :: 0 <= j < |w.ghosts| ==> GhostOk(w.ghosts[j])
  }

  // ---------------------------------------------------------------------------------------------
  // Loading a level (World::initializeLevel)

  /** The box of one tile: its centre and the tile's size. */
  function TileBox(t: Tile, w: real, h: real): Entities.Box
  {
    Entities.Box(TileCentre(t.x, w), TileCentre(t.y, h), w, h)
  }

  function TileBoxes(ts: seq<Tile>, w: real, h: real): seq<Entities.Box>
  {
    seq(|ts|, i requires 0 <= i < |ts| => TileBox(ts[i], w, h))
  }

  /** The ghosts the factory builds for the spawn characters, one tile in size. */
  function Spawned(ss: seq<LevelMap.GhostSpawn>, w: real, h: real): seq<GhostValue>
  {
    seq(|ss|, i requires 0 <= i < |ss| =>
      NewGhost(ss[i].kind, TileCentre(ss[i].tile.x, w), TileCentre(ss[i].tile.y, h), w, h))
  }

  /** The world with the items of layout `l` added, on its current tile size: walls, coins,
      fruits and ghosts appended, and for a player a new Pacman with the controller at a standing
      start on its tile. */
  function Stocked(w: WorldValue, l: LevelMap.Layout): WorldValue
  {
    var bw, bh := w.tileW, w.tileH;
    var r := w.(walls := w.walls + l.walls,
                coins := w.coins + TileBoxes(l.coins, bw, bh),
                fruits := w.fruits + TileBoxes(l.fruits, bw, bh),
                ghosts := w.ghosts + Spawned(l.spawns, bw, bh));
    if l.player.Some? then
      var t := l.player.value;
      r.(pac := LevelMap.Some(NewPacman(TileCentre(t.x, bw), TileCentre(t.y, bh), bw, bh)),
         motion := TileMotion.StandingAt(t))
    else r
  }

  /** The world after one map character `ch` is read on tile `t`, at the world's tile size:
      the item the loader's switch builds for it, centred on the tile. */
  function Placed(w: WorldValue, ch: char, t: Tile): WorldValue
  {
    var x, y := TileCentre(t.x, w.tileW), TileCentre(t.y, w.tileH);
    match LevelMap.ItemOf(ch)
    case Wall => w.(walls := w.walls + [t])
    case Coin => w.(coins := w.coins + [Entities.Box(x, y, w.tileW, w.tileH)])
    case Fruit => w.(fruits := w.fruits + [Entities.Box(x, y, w.tileW, w.tileH)])
    case Player => w.(pac := LevelMap.Some(NewPacman(x, y, w.tileW, w.tileH)), motion := TileMotion.StandingAt(t))
    case Spawn(k) => w.(ghosts := w.ghosts + [NewGhost(k, x, y, w.tileW, w.tileH)])
    case Nothing => w
  }

  /** Reading one more character adds to the stocked world just what that character places. */
  lemma StockedPlace(w: WorldValue, l: LevelMap.Layout, ch: char, t: Tile)
    ensures Stocked(w, LevelMap.Place(l, ch, t)) == Placed(Stocked(w, l), ch, t)
  {
    match LevelMap.ItemOf(ch)
    case Wall => StockedWall(w, l, ch, t);
    case Coin => StockedCoin(w, l, ch, t);
    case Fruit => StockedFruit(w, l, ch, t);
    case Spawn(k) => StockedSpawn(w, l, ch, t, k);
    case Player => StockedPlayer(w, l, ch, t);
    case Nothing =>
  }

  lemma StockedWall(w: WorldValue, l: LevelMap.Layout, ch: char, t: Tile)
    requires LevelMap.ItemOf(ch) == LevelMap.Wall
    ensures Stocked(w, LevelMap.Place(l, ch, t)) == Placed(Stocked(w, l), ch, t)
  {
    assert LevelMap.Place(l, ch, t) == l.(walls := l.walls + [t]);
    assert w.walls + (l.walls + [t]) == w.walls + l.walls + [t];
  }

  lemma StockedCoin(w: WorldValue, l: LevelMap.Layout, ch: char, t: Tile)
    requires LevelMap.ItemOf(ch) == LevelMap.Coin
    ensures Stocked(w, LevelMap.Place(l, ch, t)) == Placed(Stocked(w, l), ch, t)
  {
    var bw, bh := w.tileW, w.tileH;
    assert LevelMap.Place(l, ch, t) == l.(coins := l.coins + [t]);
    TileBoxesAppend(l.coins, t, bw, bh);
    assert w.coins + (TileBoxes(l.coins, bw, bh) + [TileBox(t, bw, bh)]) ==
      w.coins + TileBoxes(l.coins, bw, bh) + [TileBox(t, bw, bh)];
  }

  lemma StockedFruit(w: WorldValue, l: LevelMap.Layout, ch: char, t: Tile)
    requires LevelMap.ItemOf(ch) == LevelMap.Fruit
    ensures Stocked(w, LevelMap.Place(l, ch, t)) == Placed(Stocked(w, l), ch, t)
  {
    var bw, bh := w.tileW, w.tileH;
    assert LevelMap.Place(l, ch, t) == l.(fruits := l.fruits + [t]);
    TileBoxesAppend(l.fruits, t, bw, bh);
    assert w.fruits + (TileBoxes(l.fruits, bw, bh) + [TileBox(t, bw, bh)]) ==
      w.fruits + TileBoxes(l.fruits, bw, bh) + [TileBox(t, bw, bh)];
  }

  lemma StockedSpawn(w: WorldValue, l: LevelMap.Layout, ch: char, t: Tile, k: GhostKind)
    requires LevelMap.ItemOf(ch) == LevelMap.Spawn(k)
    ensures Stocked(w, LevelMap.Place(l, ch, t)) == Placed(Stocked(w, l), ch, t)
  {
    var bw, bh := w.tileW, w.tileH;
    var sp := LevelMap.GhostSpawn(k, t);
    var g := NewGhost(k, TileCentre(t.x, bw), TileCentre(t.y, bh), bw, bh);
    assert LevelMap.Place(l, ch, t) == l.(spawns := l.spawns + [sp]);
    SpawnedAppend(l.spawns, sp, bw, bh);
    assert w.ghosts + (Spawned(l.spawns, bw, bh) + [g]) == w.ghosts + Spawned(l.spawns, bw, bh) + [g];
  }

  lemma StockedPlayer(w: WorldValue, l: LevelMap.Layout, ch: char, t: Tile)
    requires LevelMap.ItemOf(ch) == LevelMap.Player
    ensures Stocked(w, LevelMap.Place(l, ch, t)) == Placed(Stocked(w, l), ch, t)
  {
    assert LevelMap.Place(l, ch, t) == l.(player := LevelMap.Some(t));
  }

  /** The tile width and height of a map: the screen's two units over the first line's length
      and over the number of lines. */
  function TileWidth(lines: seq<string>): (w: real)
    requires |lines| > 0 && |lines[0]| > 0
    ensures w > 0.0
  {
    2.0 / (|lines[0]| as real)
  }

  function TileHeight(lines: seq<string>): (h: real)
    requires |lines| > 0
    ensures h > 0.0
  {
    2.0 / (|lines| as real)
  }

  /** The map's tiles span the screen's two units exactly, across and down. */
  lemma TilesSpanScreen(lines: seq<string>)
    requires |lines| > 0 && |lines[0]| > 0
    ensures TileWidth(lines) * (|lines[0]| as real) == 2.0
    ensures TileHeight(lines) * (|lines| as real) == 2.0
  {
  }

  /** World::initializeLevel reading `lines`: the tile size follows from the first line's length
      and the number of lines; walls, coins, fruits and ghosts are appended to what the world
      already holds; each 'P' builds a new Pacman and puts the controller at a standing start on
      its tile; play waits for a key. */
  function Loaded(w: WorldValue, lines: seq<string>): (r: WorldValue)
    requires |lines| > 0 && |lines[0]| > 0
    ensures r.tileW > 0.0 && r.tileH > 0.0
    ensures r.pac.Some? <==> w.pac.Some? || LevelMap.Rows(LevelMap.Empty, lines).player.Some?
    ensures |r.ghosts| >= |w.ghosts|
    ensures !r.gameStarted
  {
    var sized := w.(tileW := TileWidth(lines), tileH := TileHeight(lines));
    Stocked(sized, LevelMap.Rows(LevelMap.Empty, lines)).(gameStarted := false)
  }

  /** Loading keeps the ghosts the world held, in front, and every ghost it adds is a valid
      ghost waiting in its pen. */
  lemma LoadedGhosts(w: WorldValue, lines: seq<string>)
    requires |lines| > 0 && |lines[0]| > 0
    ensures var r := Loaded(w, lines);
      r.ghosts[..|w.ghosts|] == w.ghosts &&
      forall j :: |w.ghosts| <= j < |r.ghosts| ==> GhostOk(r.ghosts[j]) && r.ghosts[j].state == WAITING
  {
    var r := Loaded(w, lines);
    assert r.ghosts[..|w.ghosts|] == w.ghosts;
  }

  /** Distinct tiles have distinct boxes. */
  lemma TileBoxInjective(a: Tile, b: Tile, w: real, h: real)
    requires w > 0.0 && h > 0.0
    ensures TileBox(a, w, h) == TileBox(b, w, h) <==> a == b
  {
    if TileBox(a, w, h) == TileBox(b, w, h) {
      assert (a.x - b.x) as real * w == 0.0;
      assert (a.y - b.y) as real * h == 0.0;
    }
  }

  lemma TileBoxesHas(ts: seq<Tile>, t: Tile, w: real, h: real)
    requires w > 0.0 && h > 0.0
    ensures TileBox(t, w, h) in TileBoxes(ts, w, h) <==> t in ts
  {
    if TileBox(t, w, h) in TileBoxes(ts, w, h) {
      var i :| 0 <= i < |ts| && TileBoxes(ts, w, h)[i] == TileBox(t, w, h);
      TileBoxInjective(ts[i], t, w, h);
    }
    if t in ts {
      var i :| 0 <= i < |ts| && ts[i] == t;
      assert TileBoxes(ts, w, h)[i] == TileBox(t, w, h);
    }
  }

  lemma TileBoxesAppend(ts: seq<Tile>, t: Tile, w: real, h: real)
    ensures TileBoxes(ts + [t], w, h) == TileBoxes(ts, w, h) + [TileBox(t, w, h)]
  {
    assert forall i :: 0 <= i < |ts| ==> (ts + [t])[i] == ts[i];
  }

  lemma SpawnedAppend(ss: seq<LevelMap.GhostSpawn>, sp: LevelMap.GhostSpawn, w: real, h: real)
    ensures Spawned(ss + [sp], w, h) ==
      Spawned(ss, w, h) + [NewGhost(sp.kind, TileCentre(sp.tile.x, w), TileCentre(sp.tile.y, h), w, h)]
  {
    assert forall i :: 0 <= i < |ss| ==> (ss + [sp])[i] == ss[i];
  }

  /** After loading, a tile holds a wall, and the box of a tile is a coin or a fruit, exactly
      when the world held it before or the map's character there is '#', '0' or 'f'. */
  lemma LoadedContents(w: WorldValue, lines: seq<string>, t: Tile)
    requires |lines| > 0 && |lines[0]| > 0
    ensures var r := Loaded(w, lines);
      (t in r.walls <==> t in w.walls || LevelMap.Holds(lines, t, '#')) &&
      (TileBox(t, r.tileW, r.tileH) in r.coins <==>
         TileBox(t, r.tileW, r.tileH) in w.coins || LevelMap.Holds(lines, t, '0')) &&
      (TileBox(t, r.tileW, r.tileH) in r.fruits <==>
         TileBox(t, r.tileW, r.tileH) in w.fruits || LevelMap.Holds(lines, t, 'f'))
  {
    var r := Loaded(w, lines);
    var l := LevelMap.Rows(LevelMap.Empty, lines);
    LevelMap.LoadedExactly(lines, t, Red);
    TileBoxesHas(l.coins, t, r.tileW, r.tileH);
    TileBoxesHas(l.fruits, t, r.tileW, r.tileH);
  }

  /** A map with a 'P' gives a new Pacman with three lives on the last 'P', and the controller a
      standing start there; when the walls the world already held are walls of this map, that
      start satisfies the controller's invariant. */
  lemma LoadedPlayer(w: WorldValue, lines: seq<string>)
    requires |lines| > 0 && |lines[0]| > 0
    requires exists t :: LevelMap.Holds(lines, t, 'P')
    requires forall u :: u in w.walls ==> LevelMap.Holds(lines, u, '#')
    ensures var r := Loaded(w, lines);
      r.pac.Some? && r.pac.value.lives == InitialLives && !r.pac.value.dying &&
      LevelMap.Holds(lines, r.motion.tile, 'P') &&
      (forall t :: LevelMap.Holds(lines, t, 'P') ==> LevelMap.ReadingBefore(t, r.motion.tile)) &&
      r.pac.value.x == TileCentre(r.motion.tile.x, r.tileW) &&
      r.pac.value.y == TileCentre(r.motion.tile.y, r.tileH) &&
      TileMotion.Inv(r.motion, r.walls)
  {
    var r := Loaded(w, lines);
    LevelMap.RowsPlayer(LevelMap.Empty, lines);
    var t := r.motion.tile;
    LevelMap.LoadedExactly(lines, t, Red);
    assert t !in r.walls;
  }

  // ---------------------------------------------------------------------------------------------
  // Resetting after a death and moving to the next level

  function ResetAll(gs: seq<GhostValue>): (r: seq<GhostValue>)
    ensures |r| == |gs|
  {
    seq(|gs|, j requires 0 <= j < |gs| => ResetForDeath(gs[j]))
  }

  /** World::resetPositions: Pacman respawns, the controller stands on the spawn tile, every
      ghost goes back to its start to wait again, and play waits for a key. */
  function ResetPositions(w: WorldValue): (r: WorldValue)
    requires w.pac.Some? && w.tileW > 0.0 && w.tileH > 0.0
    ensures r.pac.Some?
  {
    var p := Respawned(w.pac.value);
    w.(pac := LevelMap.Some(p), motion := TileMotion.StandingAt(TileAt(p.x, p.y, w.tileW, w.tileH)),
       ghosts := ResetAll(w.ghosts), waitingToRestart := true, gameStarted := false)
  }

  /** After a reset every ghost waits at its start for its original wait time, Pacman stands at
      its spawn point alive with the lives it had, and nothing else is touched. */
  lemma ResetEffects(w: WorldValue)
    requires w.pac.Some? && Valid(w)
    ensures var r := ResetPositions(w);
      Valid(r) && r.waitingToRestart && !r.gameStarted &&
      r.pac.value.lives == w.pac.value.lives && !r.pac.value.dying &&
      r.pac.value.x == w.pac.value.spawnX && r.pac.value.y == w.pac.value.spawnY &&
      r.motion.progress == 0.0 && r.motion.dir == ' ' &&
      (forall j :: 0 <= j < |r.ghosts| ==>
         r.ghosts[j].state == WAITING && r.ghosts[j].x == w.ghosts[j].startX &&
         r.ghosts[j].y == w.ghosts[j].startY && r.ghosts[j].spawnTimer == w.ghosts[j].originalSpawnTime) &&
      r.coins == w.coins && r.fruits == w.fruits && r.score == w.score && r.level == w.level
  {
    var r := ResetPositions(w);
    forall j | 0 <= j < |r.ghosts|
      ensures GhostOk(r.ghosts[j])
    {
      SpeedInvariant(w.ghosts[j], 0.0, 0.0, [], PacView(0.0, 0.0, ' '), 0.0, [], x => x);
    }
  }

  /** The ghost speed of a level: the default speed raised by 15% of it per level after the
      first. */
  function LevelSpeed(level: int): real
  {
    DefaultSpeed * (1.0 + (level - 1) as real * SpeedStep)
  }

  /** Level 1 runs at the default speed and every later level strictly faster. */
  lemma LevelSpeedIncreases(a: int, b: int)
    requires a < b
    ensures LevelSpeed(1) == DefaultSpeed
    ensures LevelSpeed(a) < LevelSpeed(b)
  {
    assert LevelSpeed(b) - LevelSpeed(a) == DefaultSpeed * SpeedStep * (b - a) as real;
  }

  function Rebased(gs: seq<GhostValue>, s: real): (r: seq<GhostValue>)
    ensures |r| == |gs|
  {
    seq(|gs|, j requires 0 <= j < |gs| => WithBaseSpeed(gs[j], s))
  }

  /** The first half of World::nextLevel: the clear bonus, the next level number, and the
      level's coins, fruits and ghosts cleared (its walls are not). */
  function Cleared(w: WorldValue): WorldValue
  {
    w.(score := Scoring.Apply(w.score, Scoring.LevelCleared), level := w.level + 1,
       coins := [], fruits := [], ghosts := [])
  }

  /** The second half: the level read again from the map (so its walls are appended once more),
      every ghost at the level's speed, Pacman respawned, and play waiting for a key. */
  function Restocked(c: WorldValue, lines: seq<string>): (r: WorldValue)
    requires |lines| > 0 && |lines[0]| > 0
    requires c.pac.Some? || LevelMap.Rows(LevelMap.Empty, lines).player.Some?
    ensures r.pac.Some?
  {
    var l := Loaded(c, lines);
    l.(ghosts := Rebased(l.ghosts, LevelSpeed(c.level)), pac := LevelMap.Some(Respawned(l.pac.value)),
       waitingToRestart := true, gameStarted := false)
  }

  /** World::nextLevel. */
  function NextLevel(w: WorldValue, lines: seq<string>): (r: WorldValue)
    requires |lines| > 0 && |lines[0]| > 0
    requires w.pac.Some? || LevelMap.Rows(LevelMap.Empty, lines).player.Some?
    ensures r.pac.Some?
  {
    Restocked(Cleared(w), lines)
  }

  /** The next level adds the clear bonus and resets the combo, bumps the level, holds exactly
      the map's coins and fruits, runs every ghost waiting at the new level's speed, keeps the
      old walls and appends the map's walls again, and waits for a key; a map with a 'P' also
      brings Pacman back to three lives. */
  lemma NextLevelEffects(w: WorldValue, lines: seq<string>, t: Tile)
    requires |lines| > 0 && |lines[0]| > 0
    requires w.pac.Some? || LevelMap.Rows(LevelMap.Empty, lines).player.Some?
    requires Valid(w)
    ensures var r := NextLevel(w, lines);
      Valid(r) && r.level == w.level + 1 &&
      r.score.total == w.score.total + Scoring.LevelClearBonus && r.score.combo == 0 &&
      (forall j :: 0 <= j < |r.ghosts| ==>
         r.ghosts[j].state == WAITING && r.ghosts[j].baseSpeed == LevelSpeed(r.level) &&
         r.ghosts[j].speed == LevelSpeed(r.level)) &&
      (TileBox(t, r.tileW, r.tileH) in r.coins <==> LevelMap.Holds(lines, t, '0')) &&
      (TileBox(t, r.tileW, r.tileH) in r.fruits <==> LevelMap.Holds(lines, t, 'f')) &&
      (t in r.walls <==> t in w.walls || LevelMap.Holds(lines, t, '#')) &&
      |r.walls| == |w.walls| + |LevelMap.Rows(LevelMap.Empty, lines).walls| &&
      r.waitingToRestart && !r.gameStarted && !r.pac.value.dying &&
      ((exists u :: LevelMap.Holds(lines, u, 'P')) ==> r.pac.value.lives == InitialLives)
  {
    var level := w.level + 1;
    var cleared := Cleared(w);
    var l := Loaded(cleared, lines);
    var r := NextLevel(w, lines);
    LoadedContents(cleared, lines, t);
    LoadedGhosts(cleared, lines);
    forall j | 0 <= j < |r.ghosts|
      ensures GhostOk(r.ghosts[j]) && r.ghosts[j].state == WAITING
    {
      SpeedInvariant(l.ghosts[j], 0.0, LevelSpeed(level), [], PacView(0.0, 0.0, ' '), 0.0, [], x => x);
    }
    if exists u :: LevelMap.Holds(lines, u, 'P') {
      LevelMap.RowsPlayer(LevelMap.Empty, lines);
    }
  }

  /** A level read fresh is complete at once exactly when its map has no coin. */
  lemma NextLevelCompleteIffNoCoins(w: WorldValue, lines: seq<string>)
    requires |lines| > 0 && |lines[0]| > 0
    requires w.pac.Some? || LevelMap.Rows(LevelMap.Empty, lines).player.Some?
    ensures LevelComplete(NextLevel(w, lines)) <==> forall t :: !LevelMap.Holds(lines, t, '0')
  {
    var r := NextLevel(w, lines);
    var cs := LevelMap.Rows(LevelMap.Empty, lines).coins;
    assert |r.coins| == |cs|;
    if cs != [] {
      LevelMap.LoadedExactly(lines, cs[0], Red);
    }
    forall t | LevelMap.Holds(lines, t, '0')
      ensures t in cs
    {
      LevelMap.LoadedExactly(lines, t, Red);
    }
  }

  // ---------------------------------------------------------------------------------------------
  // Queries

  /** World::getLives: the player's lives, 0 while there is no player. */
  function Lives(w: WorldValue): int
  {
    if w.pac.Some? then w.pac.value.lives else 0
  }

  /** World::isGameOver: a player with no lives left who is dying and whose death animation has finished. */
  predicate GameOver(w: WorldValue)
  {
    w.pac.Some? && w.pac.value.lives <= 0 && w.pac.value.dying && DeathComplete(w.pac.value)
  }

  /** World::isLevelComplete: no coin left. */
  predicate LevelComplete(w: WorldValue)
  {
    w.coins == []
  }

  // ---------------------------------------------------------------------------------------------
  // One frame (World::update)

  /** Any key other than "none" and ' ' starts or resumes play. */
  predicate Pressed(input: char)
  {
    input != TileMotion.NoInput && input != ' '
  }

  function PacBox(p: PacmanValue): Entities.Box
  {
    Entities.Box(p.x, p.y, p.width, p.height)
  }

  function GhostBox(g: GhostValue): Entities.Box
  {
    Entities.Box(g.x, g.y, g.width, g.height)
  }

  /** The directions of `ds` whose neighbouring tile from `from` is not a wall. */
  function Unblocked(ds: seq<char>, from: Tile, walls: seq<Tile>): (r: seq<char>)
    ensures forall d :: d in r <==> d in ds && StepTile(from, d) !in walls
    ensures |r| <= |ds|
  {
    if ds == [] then []
    else
      var rest := Unblocked(ds[1..], from, walls);
      assert forall d :: d in ds <==> d == ds[0] || d in ds[1..];
      if StepTile(from, ds[0]) in walls then rest else [ds[0]] + rest
  }

  /** The directions of `ds` other than `c`. */
  function Without(ds: seq<char>, c: char): (r: seq<char>)
    ensures forall d :: d in r <==> d in ds && d != c
    ensures c !in ds ==> r == ds
    ensures |ds| > 0 && (forall i, j :: 0 <= i < j < |ds| ==> ds[i] != ds[j]) ==> |r| >= |ds| - 1
  {
    if ds == [] then []
    else
      var rest := Without(ds[1..], c);
      assert forall d :: d in ds <==> d == ds[0] || d in ds[1..];
      if ds[0] == c then rest else [ds[0]] + rest
  }

  /** The legal set World::update hands a ghost: the four directions whose neighbouring tile
      (from the tile the ghost is on) is not a wall, less the reverse of its current direction
      when that leaves more than one. */
  function ValidMoves(g: GhostValue, walls: seq<Tile>, w: real, h: real): seq<char>
    requires w > 0.0 && h > 0.0
  {
    var open := Unblocked(['U', 'D', 'L', 'R'], TileAt(g.x, g.y, w, h), walls);
    if |open| > 1 then Without(open, Opposite(g.direction)) else open
  }

  lemma UnblockedDistinct(ds: seq<char>, from: Tile, walls: seq<Tile>)
    requires forall i, j :: 0 <= i < j < |ds| ==> ds[i] != ds[j]
    ensures var r := Unblocked(ds, from, walls);
      forall i, j :: 0 <= i < j < |r| ==> r[i] != r[j]
    decreases |ds|
  {
    if ds != [] {
      UnblockedDistinct(ds[1..], from, walls);
    }
  }

  /** A direction is legal exactly when it leads to an open tile and, if more than one does, it
      does not reverse the ghost; a ghost with any open neighbour always has a legal move. */
  lemma ValidMovesExact(g: GhostValue, walls: seq<Tile>, w: real, h: real, d: char)
    requires w > 0.0 && h > 0.0
    ensures var from := TileAt(g.x, g.y, w, h);
      var open := Unblocked(['U', 'D', 'L', 'R'], from, walls);
      (d in ValidMoves(g, walls, w, h) <==>
         IsDir(d) && StepTile(from, d) !in walls && (|open| > 1 ==> d != Opposite(g.direction))) &&
      (|open| > 0 ==> |ValidMoves(g, walls, w, h)| > 0)
  {
    var from := TileAt(g.x, g.y, w, h);
    var dirs := ['U', 'D', 'L', 'R'];
    assert d in dirs <==> IsDir(d);
    UnblockedDistinct(dirs, from, walls);
  }

  function HideAll(gs: seq<GhostValue>): (r: seq<GhostValue>)
    ensures |r| == |gs|
  {
    seq(|gs|, j requires 0 <= j < |gs| => Hidden(gs[j]))
  }

  /** Despawning every ghost keeps them well-formed. */
  lemma HiddenGhostsOk(gs: seq<GhostValue>)
    requires forall j :: 0 <= j < |gs| ==> GhostOk(gs[j])
    ensures forall j :: 0 <= j < |HideAll(gs)| ==> GhostOk(HideAll(gs)[j])
  {
    forall j | 0 <= j < |gs|
      ensures GhostOk(HideAll(gs)[j])
    {
      SpeedInvariant(gs[j], 0.0, 0.0, [], PacView(0.0, 0.0, ' '), 0.0, [], x => x);
    }
  }

  /** A well-formed ghost stays well-formed when it is eaten and then updated. */
  lemma TurnedGhostOk(g: GhostValue, eaten: bool, valid: seq<char>, view: PacView, dt: real,
                      rng: Rng, root: real -> real)
    requires GhostOk(g)
    ensures GhostOk(Stepped(if eaten then Killed(g) else g, valid, view, dt, rng, root).0)
  {
    var g1 := if eaten then Killed(g) else g;
    SpeedInvariant(g, 0.0, 0.0, valid, view, dt, rng, root);
    SpeedInvariant(g1, 0.0, 0.0, valid, view, dt, rng, root);
  }

  /** Where the ghost pass of one frame stands: the ghosts so far, the score, the random
      stream, and whether a chasing ghost has caught the player. */
  datatype Pass = Pass(ghosts: seq<GhostValue>, score: Scoring.ScoreValue, rng: Rng, caught: bool)

  /** All ghosts of `p` can be updated. */
  predicate PassOk(p: Pass)
  {
    p.score.combo >= 0 && forall j :: 0 <= j < |p.ghosts| ==> GhostOk(p.ghosts[j])
  }

  /** The body of the ghost loop for ghost `i`: touching a chasing ghost ends the pass with
      every ghost despawned; touching a feared one scores it and kills it; then the ghost is
      updated with its legal set and the player's position and direction. */
  function GhostTurn(p: Pass, i: nat, pac: PacmanValue, walls: seq<Tile>, w: real, h: real,
                     dt: real, root: real -> real): (r: Pass)
    requires i < |p.ghosts| && w > 0.0 && h > 0.0 && PassOk(p)
    ensures |r.ghosts| == |p.ghosts| && PassOk(r) && Consumed(p.rng, r.rng)
    ensures r.score.total >= p.score.total
    ensures r.caught ==> forall j :: 0 <= j < |r.ghosts| ==> r.ghosts[j].state == DESPAWNED
  {
    var g := p.ghosts[i];
    var touching := Entities.IntersectsPickup(PacBox(pac), GhostBox(g));
    if touching && g.state == CHASING then
      HiddenGhostsOk(p.ghosts);
      p.(ghosts := HideAll(p.ghosts), caught := true)
    else
      var eaten := touching && g.state == FEARED;
      var g1 := if eaten then Killed(g) else g;
      var s1 := if eaten then Scoring.Apply(p.score, Scoring.GhostEaten) else p.score;
      var valid := ValidMoves(g1, walls, w, h);
      var view := PacView(pac.x, pac.y, pac.direction);
      var st := Stepped(g1, valid, view, dt, p.rng, root);
      TurnedGhostOk(g, eaten, valid, view, dt, p.rng, root);
      Pass(p.ghosts[i := st.0], s1, st.1, false)
  }

  /** The ghost loop of World::update from ghost `i` on, given the pass so far: it stops at the
      end of the ghosts or at a catch. */
  function ChaseFrom(w: WorldValue, p: Pass, i: nat, dt: real, root: real -> real): (r: Pass)
    requires w.pac.Some? && w.tileW > 0.0 && w.tileH > 0.0 && i <= |p.ghosts| && PassOk(p)
    requires p.caught ==> forall j :: 0 <= j < |p.ghosts| ==> p.ghosts[j].state == DESPAWNED
    ensures |r.ghosts| == |p.ghosts| && PassOk(r) && Consumed(p.rng, r.rng)
    ensures r.score.total >= p.score.total
    ensures r.caught ==> forall j :: 0 <= j < |r.ghosts| ==> r.ghosts[j].state == DESPAWNED
    decreases |p.ghosts| - i
  {
    if p.caught || i == |p.ghosts| then p
    else
      var q := GhostTurn(p, i, w.pac.value, w.walls, w.tileW, w.tileH, dt, root);
      var r := ChaseFrom(w, q, i + 1, dt, root);
      ConsumedTransitive(p.rng, q.rng, r.rng);
      r
  }

  /** The pass ends at a chasing ghost that touches the player, with every ghost despawned. */
  lemma ChaseCaughtAt(w: WorldValue, p: Pass, i: nat, dt: real, root: real -> real)
    requires w.pac.Some? && w.tileW > 0.0 && w.tileH > 0.0 && i < |p.ghosts| && PassOk(p) && !p.caught
    requires p.ghosts[i].state == CHASING
    requires Entities.IntersectsPickup(PacBox(w.pac.value), GhostBox(p.ghosts[i]))
    ensures ChaseFrom(w, p, i, dt, root) == p.(ghosts := HideAll(p.ghosts), caught := true)
  {
    var q := GhostTurn(p, i, w.pac.value, w.walls, w.tileW, w.tileH, dt, root);
    assert q == p.(ghosts := HideAll(p.ghosts), caught := true);
  }

  /** The whole ghost loop of one frame, from the world's ghosts and score. */
  function Chase(w: WorldValue, dt: real, rng: Rng, root: real -> real): (p: Pass)
    requires Valid(w) && w.pac.Some?
    ensures |p.ghosts| == |w.ghosts| && PassOk(p) && Consumed(rng, p.rng)
    ensures p.score.total >= w.score.total
    ensures p.caught ==> forall j :: 0 <= j < |p.ghosts| ==> p.ghosts[j].state == DESPAWNED
  {
    ChaseFrom(w, Pass(w.ghosts, w.score, rng, false), 0, dt, root)
  }

  /** The items of `items` the collector box `b` does not touch, in their order
      (std::erase_if with World::intersectsPickup). */
  function Kept(items: seq<Entities.Box>, b: Entities.Box): (r: seq<Entities.Box>)
    ensures |r| <= |items|
    ensures |items| == 1 ==> r == (if Entities.IntersectsPickup(b, items[0]) then [] else items)
    decreases |items|
  {
    if items == [] then []
    else
      var n := |items| - 1;
      var rest := Kept(items[..n], b);
      if Entities.IntersectsPickup(b, items[n]) then rest else rest + [items[n]]
  }

  /** An item is kept exactly when it is there and the box does not touch it; when the box
      touches one, fewer items are left. */
  lemma {:induction false} KeptExact(items: seq<Entities.Box>, b: Entities.Box)
    ensures forall c :: c in Kept(items, b) <==> c in items && !Entities.IntersectsPickup(b, c)
    ensures (exists c :: c in items && Entities.IntersectsPickup(b, c)) ==> |Kept(items, b)| < |items|
    decreases |items|
  {
    if items != [] {
      var n := |items| - 1;
      KeptExact(items[..n], b);
      assert items == items[..n] + [items[n]];
      assert forall c :: c in items <==> c in items[..n] || c == items[n];
    }
  }

  /** Removal is stable: the survivors of a concatenation are the survivors of its first part
      followed by those of its second, so with the one-item case above the kept items are the
      untouched ones in their original order. */
  lemma {:induction false} KeptAppend(items: seq<Entities.Box>, more: seq<Entities.Box>, b: Entities.Box)
    ensures Kept(items + more, b) == Kept(items, b) + Kept(more, b)
    decreases |more|
  {
    if more == [] {
      assert items + more == items;
    } else {
      var m := |more| - 1;
      assert (items + more)[..|items + more| - 1] == items + more[..m];
      assert (items + more)[|items + more| - 1] == more[m];
      KeptAppend(items, more[..m], b);
    }
  }

  /** The score after the same event `k` times. */
  function Times(s: Scoring.ScoreValue, e: Scoring.Event, k: nat): Scoring.ScoreValue
    decreases k
  {
    if k == 0 then s else Scoring.Apply(Times(s, e, k - 1), e)
  }

  lemma {:induction false} TimesNeverDecreases(s: Scoring.ScoreValue, e: Scoring.Event, k: nat)
    requires !e.Reset? && s.combo >= 0
    ensures Times(s, e, k).total >= s.total && Times(s, e, k).combo >= 0
    decreases k
  {
    if k > 0 {
      TimesNeverDecreases(s, e, k - 1);
    }
  }

  function FrightenAll(gs: seq<GhostValue>): (r: seq<GhostValue>)
    ensures |r| == |gs|
  {
    seq(|gs|, j requires 0 <= j < |gs| => Frightened(gs[j], FruitFearDuration))
  }

  /** Every ghost frightened once per fruit eaten. */
  function FrightenedTimes(gs: seq<GhostValue>, k: nat): (r: seq<GhostValue>)
    ensures |r| == |gs|
    decreases k
  {
    if k == 0 then gs else FrightenAll(FrightenedTimes(gs, k - 1))
  }

  /** However often it is frightened, a ghost that is neither dead nor waiting ends feared for
      the full duration, and the others are untouched; ghosts stay well-formed. */
  lemma {:induction false} FrightenedTimesEffect(gs: seq<GhostValue>, k: nat, j: int)
    requires 0 <= j < |gs| && GhostOk(gs[j])
    ensures var g := FrightenedTimes(gs, k)[j];
      GhostOk(g) &&
      (k > 0 && gs[j].state != DEAD && gs[j].state != WAITING ==>
         g.state == FEARED && g.fearedTimer == FruitFearDuration) &&
      (k == 0 || gs[j].state == DEAD || gs[j].state == WAITING ==> g == gs[j])
    decreases k
  {
    if k > 0 {
      FrightenedTimesEffect(gs, k - 1, j);
      var before := FrightenedTimes(gs, k - 1)[j];
      SpeedInvariant(before, FruitFearDuration, 0.0, [], PacView(0.0, 0.0, ' '), 0.0, [], x => x);
    }
  }

  /** Some ghost is feared. */
  predicate AnyFeared(gs: seq<GhostValue>)
  {
    exists j :: 0 <= j < |gs| && gs[j].state == FEARED
  }

  /** Coin collection (the first std::erase_if of World::update): the coins the player's
      half-size box touches are removed, each scored as one onCoinCollected. */
  function CoinsCollected(w: WorldValue, dt: real): WorldValue
    requires w.pac.Some?
  {
    var coins := Kept(w.coins, PacBox(w.pac.value));
    w.(coins := coins, score := Times(w.score, Scoring.CoinCollected(dt), |w.coins| - |coins|))
  }

  /** Fruit collection: each fruit touched is removed and scored, frightens every ghost, and
      turns fruit mode on. */
  function FruitsCollected(w: WorldValue): WorldValue
    requires w.pac.Some?
  {
    var fruits := Kept(w.fruits, PacBox(w.pac.value));
    var eaten := |w.fruits| - |fruits|;
    w.(fruits := fruits, score := Times(w.score, Scoring.FruitCollected, eaten),
       ghosts := FrightenedTimes(w.ghosts, eaten), inFruitMode := w.inFruitMode || eaten > 0)
  }

  /** The end of a frame: fruit mode ends when no ghost is feared. */
  function FruitModeChecked(w: WorldValue): WorldValue
  {
    w.(inFruitMode := w.inFruitMode && AnyFeared(w.ghosts))
  }

  /** Coin and fruit collection and the fruit-mode check that end a frame. */
  function Pickups(w: WorldValue, dt: real): WorldValue
    requires w.pac.Some?
  {
    FruitModeChecked(FruitsCollected(CoinsCollected(w, dt)))
  }

  /** The controller's step applied to the world (World::updatePacmanTileBased). */
  function Steered(w: WorldValue, input: char, dt: real): (r: WorldValue)
    requires w.pac.Some?
    ensures r.pac.Some?
  {
    var c := TileMotion.TileStep(TileMotion.Control(w.motion, w.pac.value), w.walls, dt, input, w.tileW, w.tileH);
    w.(motion := c.motion, pac := LevelMap.Some(c.pac))
  }

  /** The world once a chasing ghost has caught Pacman during the ghost pass `p`. */
  function Caught(w: WorldValue, p: Pass): WorldValue
    requires w.pac.Some?
  {
    w.(ghosts := p.ghosts, score := p.score, pac := LevelMap.Some(Died(w.pac.value)), inFruitMode := false)
  }

  /** The world after a ghost pass `p` with no catch. */
  function Survived(w: WorldValue, p: Pass): WorldValue
  {
    w.(ghosts := p.ghosts, score := p.score)
  }

  /** The rest of a frame once play is on: the controller moves Pacman, the ghost loop runs, and
      unless a ghost caught Pacman, the pickups are collected. */
  function Play(w: WorldValue, input: char, dt: real, rng: Rng, root: real -> real): (o: Outcome)
    requires Valid(w) && w.pac.Some?
    ensures Consumed(rng, o.rng) && o.world.pac.Some?
  {
    var moved := Steered(w, input, dt);
    var p := Chase(moved, dt, rng, root);
    if p.caught then Outcome(Caught(moved, p), p.rng)
    else Outcome(Pickups(Survived(moved, p), dt), p.rng)
  }

  /** A world after one frame, and what is left of the random stream. */
  datatype Outcome = Outcome(world: WorldValue, rng: Rng)

  /** The branch of World::update for a dying Pacman: the death animation runs, and when it
      completes with lives left the combo and coin timer are reset and so are the positions. */
  function DeathStep(w: WorldValue, dt: real): (r: WorldValue)
    requires w.pac.Some? && w.tileW > 0.0 && w.tileH > 0.0
    ensures r.pac.Some?
  {
    var p := Updated(w.pac.value, dt);
    var w1 := w.(pac := LevelMap.Some(p));
    if DeathComplete(p) && p.lives > 0 then ResetPositions(w1.(score := Scoring.Apply(w1.score, Scoring.PacmanDied)))
    else w1
  }

  /** Whether play goes on past the two start gates of World::update: a key is pressed, or the
      world is neither waiting after a reset nor before its first key. */
  predicate Plays(w: WorldValue, input: char)
  {
    Pressed(input) || (!w.waitingToRestart && w.gameStarted)
  }

  /** World::update for a frame of length `dt` with key `input`: the score's coin timer runs;
      a dying Pacman only plays its animation; otherwise nothing moves until play goes on past
      the start gates, which then clear the wait and mark the game started, and a frame of play
      follows. */
  function Frame(w: WorldValue, input: char, dt: real, rng: Rng, root: real -> real): (o: Outcome)
    requires Valid(w) && w.pac.Some?
    ensures Consumed(rng, o.rng) && o.world.pac.Some?
  {
    var w0 := w.(score := Scoring.Apply(w.score, Scoring.Tick(dt)));
    if w0.pac.value.dying then Outcome(DeathStep(w0, dt), rng)
    else if Plays(w0, input) then Play(w0.(waitingToRestart := false, gameStarted := true), input, dt, rng, root)
    else Outcome(w0, rng)
  }

  // ---------------------------------------------------------------------------------------------
  // Properties of a frame

  lemma PickupsKeepValid(w: WorldValue, dt: real)
    requires Valid(w) && w.pac.Some?
    ensures Valid(Pickups(w, dt)) && Pickups(w, dt).score.total >= w.score.total
  {
    var box := PacBox(w.pac.value);
    var coins := Kept(w.coins, box);
    var s1 := Times(w.score, Scoring.CoinCollected(dt), |w.coins| - |coins|);
    var eaten := |w.fruits| - |Kept(w.fruits, box)|;
    TimesNeverDecreases(w.score, Scoring.CoinCollected(dt), |w.coins| - |coins|);
    TimesNeverDecreases(s1, Scoring.FruitCollected, eaten);
    forall j | 0 <= j < |w.ghosts|
      ensures GhostOk(FrightenedTimes(w.ghosts, eaten)[j])
    {
      FrightenedTimesEffect(w.ghosts, eaten, j);
    }
  }

  lemma PlayKeepsValid(w: WorldValue, input: char, dt: real, rng: Rng, root: real -> real)
    requires Valid(w) && w.pac.Some?
    ensures Valid(Play(w, input, dt, rng, root).world)
    ensures Play(w, input, dt, rng, root).world.score.total >= w.score.total
  {
    var moved := Steered(w, input, dt);
    var p := Chase(moved, dt, rng, root);
    if !p.caught {
      PickupsKeepValid(Survived(moved, p), dt);
    }
  }

  /** Every frame keeps the world well-formed, and the score never goes down in a frame. */
  lemma FrameKeepsValid(w: WorldValue, input: char, dt: real, rng: Rng, root: real -> real)
    requires Valid(w) && w.pac.Some?
    ensures Valid(Frame(w, input, dt, rng, root).world)
    ensures Frame(w, input, dt, rng, root).world.score.total >= w.score.total
  {
    var w0 := w.(score := Scoring.Apply(w.score, Scoring.Tick(dt)));
    if w0.pac.value.dying {
      var p1 := Updated(w0.pac.value, dt);
      var w1 := w0.(pac := LevelMap.Some(p1));
      if DeathComplete(p1) && p1.lives > 0 {
        ResetEffects(w1.(score := Scoring.Apply(w1.score, Scoring.PacmanDied)));
      }
    } else if Plays(w0, input) {
      PlayKeepsValid(w0.(waitingToRestart := false, gameStarted := true), input, dt, rng, root);
    }
  }

  /** Once the game is over it stays over: a frame only runs the death and coin timers on, and
      draws nothing from the random stream. */
  lemma GameOverIsFinal(w: WorldValue, input: char, dt: real, rng: Rng, root: real -> real)
    requires Valid(w) && GameOver(w) && dt >= 0.0
    ensures var o := Frame(w, input, dt, rng, root);
      GameOver(o.world) && o.rng == rng && Lives(o.world) == Lives(w) &&
      o.world.ghosts == w.ghosts && o.world.coins == w.coins && o.world.fruits == w.fruits &&
      o.world.score.total == w.score.total && o.world.motion == w.motion
  {
  }

  /** Before the first key of a level or after a reset, a frame with no key only runs the
      score's coin timer. */
  lemma IdleUntilKeyPress(w: WorldValue, input: char, dt: real, rng: Rng, root: real -> real)
    requires Valid(w) && w.pac.Some? && !w.pac.value.dying
    requires (w.waitingToRestart || !w.gameStarted) && !Pressed(input)
    ensures Frame(w, input, dt, rng, root).world == w.(score := Scoring.Apply(w.score, Scoring.Tick(dt)))
    ensures Frame(w, input, dt, rng, root).rng == rng
  {
  }

  /** A living Pacman loses a life in a frame only by meeting a chasing ghost, and then exactly
      one: every ghost is despawned, fruit mode ends, and no coin or fruit is collected in that
      frame. Otherwise the lives are unchanged. */
  lemma DeathCostsOneLife(w: WorldValue, input: char, dt: real, rng: Rng, root: real -> real)
    requires Valid(w) && w.pac.Some? && !w.pac.value.dying
    ensures var r := Frame(w, input, dt, rng, root).world;
      (r.pac.value.dying ==>
         r.pac.value.lives == w.pac.value.lives - 1 && !r.inFruitMode &&
         r.coins == w.coins && r.fruits == w.fruits &&
         forall j :: 0 <= j < |r.ghosts| ==> r.ghosts[j].state == DESPAWNED) &&
      (!r.pac.value.dying ==> r.pac.value.lives == w.pac.value.lives)
  {
    var w0 := w.(score := Scoring.Apply(w.score, Scoring.Tick(dt)));
    if Plays(w0, input) {
      var ws := w0.(waitingToRestart := false, gameStarted := true);
      var c := TileMotion.TileStep(TileMotion.Control(ws.motion, ws.pac.value), ws.walls, dt, input, ws.tileW, ws.tileH);
      assert c.pac.lives == w.pac.value.lives && !c.pac.dying;
    }
  }

  /** Collection removes exactly the coins and fruits the player's half-size box touches; fruit
      mode is on afterwards only while some ghost is feared, and stays or turns on whenever one
      is, if it was on or a fruit was just eaten. */
  lemma PickupsExact(w: WorldValue, dt: real, c: Entities.Box)
    requires w.pac.Some?
    ensures var r := Pickups(w, dt);
      var b := PacBox(w.pac.value);
      (c in r.coins <==> c in w.coins && !Entities.IntersectsPickup(b, c)) &&
      (c in r.fruits <==> c in w.fruits && !Entities.IntersectsPickup(b, c)) &&
      (r.inFruitMode ==> AnyFeared(r.ghosts)) &&
      ((w.inFruitMode || |r.fruits| < |w.fruits|) && AnyFeared(r.ghosts) ==> r.inFruitMode)
    ensures Pickups(w, dt).coins == Kept(w.coins, PacBox(w.pac.value))
    ensures Pickups(w, dt).fruits == Kept(w.fruits, PacBox(w.pac.value))
  {
    KeptExact(w.coins, PacBox(w.pac.value));
    KeptExact(w.fruits, PacBox(w.pac.value));
  }

  /** A fruit eaten frightens every ghost that is chasing or already feared for the full
      duration, and fruit mode is then on. */
  lemma FruitFrightens(w: WorldValue, dt: real, j: int)
    requires Valid(w) && w.pac.Some? && 0 <= j < |w.ghosts|
    requires exists f :: f in w.fruits && Entities.IntersectsPickup(PacBox(w.pac.value), f)
    requires w.ghosts[j].state == CHASING || w.ghosts[j].state == FEARED
    ensures Pickups(w, dt).ghosts[j].state == FEARED
    ensures Pickups(w, dt).ghosts[j].fearedTimer == FruitFearDuration
    ensures Pickups(w, dt).inFruitMode
  {
    var box := PacBox(w.pac.value);
    var eaten := |w.fruits| - |Kept(w.fruits, box)|;
    KeptExact(w.fruits, box);
    FrightenedTimesEffect(w.ghosts, eaten, j);
    assert FrightenedTimes(w.ghosts, eaten)[j].state == FEARED;
  }

  /** Touching a feared ghost scores 200 times the combo plus one, raises the combo, and sends
      that ghost home dead (or, already at its spawn, straight back to chasing); no other ghost
      changes. */
  lemma EatingFearedGhost(p: Pass, i: nat, pac: PacmanValue, walls: seq<Tile>, w: real, h: real,
                          dt: real, root: real -> real)
    requires i < |p.ghosts| && w > 0.0 && h > 0.0 && PassOk(p)
    requires Entities.IntersectsPickup(PacBox(pac), GhostBox(p.ghosts[i])) && p.ghosts[i].state == FEARED
    ensures var r := GhostTurn(p, i, pac, walls, w, h, dt, root);
      !r.caught &&
      r.score.total == p.score.total + Scoring.BaseGhostScore * (p.score.combo + 1) &&
      r.score.combo == p.score.combo + 1 &&
      (r.ghosts[i].state == DEAD || r.ghosts[i].state == CHASING) &&
      forall j :: 0 <= j < |p.ghosts| && j != i ==> r.ghosts[j] == p.ghosts[j]
  {
  }
}
