/** The game world (Logic::World), updated in place: the level's entities, the score, the
    player's tile controller and the flags that gate play. Every operation is proved to leave
    the world in the state the rules in WorldRules give for the state before it. */
module Game {
  import opened Grid
  import opened Randomness
  import opened GhostAI
  import opened Ghosts
  import opened Player
  import opened WorldRules
  import TileMotion
  import LevelMap
  import Scoring
  import Entities

  /** The controller and the player of a world with a player. */
  function ControlOf(w: WorldValue): TileMotion.Control
    requires w.pac.Some?
  {
    TileMotion.Control(w.motion, w.pac.value)
  }

  /** A world with its controller and player replaced. */
  function WithControl(w: WorldValue, c: TileMotion.Control): WorldValue
  {
    w.(motion := c.motion, pac := LevelMap.Some(c.pac))
  }

  /** The values of a sequence of ghost objects. */
  function ValuesOf(gs: seq<Ghost>): seq<GhostValue>
    reads gs
  {
    seq(|gs|, j requires 0 <= j < |gs| reads gs => gs[j].Value())
  }

  /** Consecutive tile centres lie one tile apart. */
  lemma CentreStep(i: int, size: real)
    ensures TileCentre(i + 1, size) == TileCentre(i, size) + size
  {
    assert (i + 1) as real * size == i as real * size + size;
  }

  /** The coin loop of World::update: the coins box `box` does not touch, each touched one
      scored on `score`. */
  method EatCoins(score: Scoring.Score, coins: seq<Entities.Box>, box: Entities.Box, dt: real)
    returns (kept: seq<Entities.Box>)
    requires score.Valid()
    modifies score
    ensures score.Valid() && kept == Kept(coins, box)
    ensures score.Value() == Times(old(score.Value()), Scoring.CoinCollected(dt), |coins| - |kept|)
  {
    ghost var s0 := score.Value();
    kept := [];
    ghost var eaten: nat := 0;
    var i := 0;
    while i < |coins|
      invariant 0 <= i <= |coins|
      invariant kept == Kept(coins[..i], box) && eaten == i - |kept|
      invariant score.Valid() && score.Value() == Times(s0, Scoring.CoinCollected(dt), eaten)
    {
      assert coins[..i + 1][..i] == coins[..i];
      if Entities.IntersectsPickup(box, coins[i]) {
        score.OnCoinCollected(dt);
        eaten := eaten + 1;
      } else {
        kept := kept + [coins[i]];
      }
      i := i + 1;
    }
    assert coins[..i] == coins;
  }

  class World {
    /** The lines of the map file every level is read from. */
    const mapLines: seq<string>
    var currentLevel: int
    var pacman: Pacman?
    var ghosts: seq<Ghost>
    var coins: seq<Entities.Box>
    var fruits: seq<Entities.Box>
    var walls: seq<Tile>
    var tileW: real
    var tileH: real
    const scoreSystem: Scoring.Score
    var inFruitMode: bool
    var waitingToRestart: bool
    var gameStarted: bool
    var tileX: int
    var tileY: int
    var tileProgress: real
    var moveDir: char
    var bufferedInput: char

    function Motion(): TileMotion.Motion
      reads this
    {
      TileMotion.Motion(Tile(tileX, tileY), tileProgress, moveDir, bufferedInput)
    }

    /** The world as a value. */
    function Value(): WorldValue
      reads this, pacman, scoreSystem, ghosts
    {
      WorldValue(currentLevel, if pacman == null then LevelMap.None else LevelMap.Some(pacman.Value()),
                 ValuesOf(ghosts), coins, fruits, walls, tileW, tileH, scoreSystem.Value(),
                 inFruitMode, waitingToRestart, gameStarted, Motion())
    }

    /** No ghost object is held twice. */
    ghost predicate Distinct()
      reads this
    {
      forall i, j :: 0 <= i < j < |ghosts| ==> ghosts[i] != ghosts[j]
    }

    /** A world ready for a frame: a player exists and the rules' invariant holds. */
    ghost predicate Ready()
      reads this, pacman, scoreSystem, ghosts
    {
      Distinct() && pacman != null && WorldRules.Valid(Value())
    }

    /** World::World: a fresh world reading its first level. */
    constructor (lines: seq<string>)
      requires |lines| > 0 && |lines[0]| > 0
      ensures mapLines == lines && Distinct()
      ensures Value() == Loaded(Fresh, lines) && WorldRules.Valid(Value())
      ensures LevelMap.Rows(LevelMap.Empty, lines).player.Some? ==> Ready()
    {
      mapLines := lines;
      currentLevel := 1;
      pacman := null;
      ghosts, coins, fruits, walls := [], [], [], [];
      tileW, tileH := 0.0, 0.0;
      scoreSystem := new Scoring.Score();
      inFruitMode, waitingToRestart, gameStarted := false, false, false;
      tileX, tileY, tileProgress, moveDir, bufferedInput := 0, 0, 0.0, ' ', ' ';
      new;
      assert ValuesOf(ghosts) == [];
      assert Value() == Fresh;
      InitializeLevel();
      LoadedGhosts(Fresh, lines);
    }

    /** World::initializeLevel: the tile size is set from the map's first line and its number of
        lines, the map is read, and play waits for a key. */
    method InitializeLevel()
      requires |mapLines| > 0 && |mapLines[0]| > 0 && Distinct()
      modifies this
      ensures Value() == Loaded(old(Value()), mapLines)
      ensures Distinct() && forall i :: 0 <= i < |ghosts| ==> ghosts[i] in old(ghosts) || fresh(ghosts[i])
      ensures pacman == old(pacman) || fresh(pacman)
    {
      SizeTiles();
      ReadMap();
      gameStarted := false;
    }

    /** The tile width and height of the map. */
    method SizeTiles()
      requires |mapLines| > 0 && |mapLines[0]| > 0
      modifies this
      ensures ghosts == old(ghosts) && pacman == old(pacman)
      ensures Value() == old(Value()).(tileW := TileWidth(mapLines), tileH := TileHeight(mapLines))
    {
      tileW := TileWidth(mapLines);
      tileH := TileHeight(mapLines);
    }

    /** The map read line by line, each line on the next row down. */
    method ReadMap()
      requires tileW > 0.0 && tileH > 0.0 && Distinct()
      modifies this
      ensures Value() == Stocked(old(Value()), LevelMap.Rows(LevelMap.Empty, mapLines))
      ensures Distinct() && forall i :: 0 <= i < |ghosts| ==> ghosts[i] in old(ghosts) || fresh(ghosts[i])
      ensures pacman == old(pacman) || fresh(pacman)
    {
      ghost var start := Value();
      ghost var l := LevelMap.Empty;
      var y := -1.0 + tileH / 2.0;
      var r := 0;
      while r < |mapLines|
        invariant 0 <= r <= |mapLines|
        invariant y == TileCentre(r, tileH)
        invariant tileW == start.tileW && tileH == start.tileH
        invariant l == LevelMap.Rows(LevelMap.Empty, mapLines[..r])
        invariant Value() == Stocked(start, l)
        invariant Distinct() && forall i :: 0 <= i < |ghosts| ==> ghosts[i] in old(ghosts) || fresh(ghosts[i])
        invariant pacman == old(pacman) || fresh(pacman)
      {
        ReadLine(start, l, r, y);
        LevelMap.RowsStep(LevelMap.Empty, mapLines, r);
        l := LevelMap.Row(l, mapLines[r], r);
        CentreStep(r, tileH);
        r := r + 1;
        y := y + tileH;
      }
      assert mapLines[..|mapLines|] == mapLines;
    }

    /** One line of the map, read on row `r` whose centre is `y`, onto the world `start` stocked
        with layout `l0`. */
    method ReadLine(ghost start: WorldValue, ghost l0: LevelMap.Layout, r: int, y: real)
      requires 0 <= r < |mapLines| && y == TileCentre(r, tileH)
      requires start.tileW == tileW > 0.0 && start.tileH == tileH > 0.0
      requires Value() == Stocked(start, l0) && Distinct()
      modifies this
      ensures tileW == old(tileW) && tileH == old(tileH)
      ensures Value() == Stocked(start, LevelMap.Row(l0, mapLines[r], r))
      ensures Distinct() && forall i :: 0 <= i < |ghosts| ==> ghosts[i] in old(ghosts) || fresh(ghosts[i])
      ensures pacman == old(pacman) || fresh(pacman)
    {
      var line := mapLines[r];
      ghost var l := l0;
      var x := -1.0 + tileW / 2.0;
      var c := 0;
      while c < |line|
        invariant 0 <= c <= |line|
        invariant x == TileCentre(c, tileW)
        invariant tileW == start.tileW && tileH == start.tileH
        invariant l == LevelMap.Row(l0, line[..c], r)
        invariant Value() == Stocked(start, l)
        invariant Distinct() && forall i :: 0 <= i < |ghosts| ==> ghosts[i] in old(ghosts) || fresh(ghosts[i])
        invariant pacman == old(pacman) || fresh(pacman)
      {
        ReadChar(start, l, line[c], c, r, x, y);
        LevelMap.RowStep(l0, line, c, r);
        l := LevelMap.Place(l, line[c], Tile(c, r));
        CentreStep(c, tileW);
        c := c + 1;
        x := x + tileW;
      }
      assert line[..|line|] == line;
    }

    /** Character `ch` on tile (c, r), whose centre is (x, y), read onto the world `start`
        stocked with layout `l`. */
    method ReadChar(ghost start: WorldValue, ghost l: LevelMap.Layout, ch: char, c: int, r: int, x: real, y: real)
      requires c >= 0 && r >= 0 && start.tileW == tileW > 0.0 && start.tileH == tileH > 0.0
      requires x == TileCentre(c, tileW) && y == TileCentre(r, tileH)
      requires Value() == Stocked(start, l) && Distinct()
      modifies this
      ensures tileW == old(tileW) && tileH == old(tileH)
      ensures Value() == Stocked(start, LevelMap.Place(l, ch, Tile(c, r)))
      ensures Distinct() && forall i :: 0 <= i < |ghosts| ==> ghosts[i] in old(ghosts) || fresh(ghosts[i])
      ensures pacman == old(pacman) || fresh(pacman)
    {
      PlaceChar(ch, c, r, x, y);
      StockedPlace(start, l, ch, Tile(c, r));
    }

    /** The loader's switch for character `ch` on tile (c, r), whose centre is (x, y). */
    method PlaceChar(ch: char, c: int, r: int, x: real, y: real)
      requires c >= 0 && r >= 0 && tileW > 0.0 && tileH > 0.0
      requires x == TileCentre(c, tileW) && y == TileCentre(r, tileH) && Distinct()
      modifies this
      ensures tileW == old(tileW) && tileH == old(tileH)
      ensures Value() == Placed(old(Value()), ch, Tile(c, r))
      ensures Distinct() && forall i :: 0 <= i < |ghosts| ==> ghosts[i] in old(ghosts) || fresh(ghosts[i])
      ensures pacman == old(pacman) || fresh(pacman)
    {
      match LevelMap.ItemOf(ch)
      case Wall =>
        walls := walls + [Tile(c, r)];
      case Coin =>
        coins := coins + [Entities.Box(x, y, tileW, tileH)];
      case Fruit =>
        fruits := fruits + [Entities.Box(x, y, tileW, tileH)];
      case Player =>
        AddPacman(c, r, x, y);
      case Spawn(k) =>
        AddGhost(k, x, y);
      case Nothing =>
    }

    /** A new Pacman at (x, y), the centre of tile (c, r), with the controller standing on it. */
    method AddPacman(c: int, r: int, x: real, y: real)
      requires c >= 0 && r >= 0 && tileW > 0.0 && tileH > 0.0
      requires x == TileCentre(c, tileW) && y == TileCentre(r, tileH)
      modifies this
      ensures ghosts == old(ghosts) && fresh(pacman)
      ensures Value() == old(Value()).(pac := LevelMap.Some(NewPacman(x, y, tileW, tileH)),
                                       motion := TileMotion.StandingAt(Tile(c, r)))
    {
      pacman := new Pacman(x, y, tileW, tileH);
      StandAt(c, r, x, y);
    }

    /** The controller at a standing start on the tile containing (x, y), the centre of tile
        (c, r). */
    method StandAt(c: int, r: int, x: real, y: real)
      requires c >= 0 && r >= 0 && tileW > 0.0 && tileH > 0.0
      requires x == TileCentre(c, tileW) && y == TileCentre(r, tileH)
      modifies this
      ensures ghosts == old(ghosts) && pacman == old(pacman) && tileW == old(tileW) && tileH == old(tileH)
      ensures Value() == old(Value()).(motion := TileMotion.StandingAt(Tile(c, r)))
    {
      CentreRoundTrip(c, tileW);
      CentreRoundTrip(r, tileH);
      tileX, tileY := TileIndex(x, tileW), TileIndex(y, tileH);
      tileProgress, moveDir, bufferedInput := 0.0, ' ', ' ';
    }

    /** A new ghost of kind `k` at (x, y), one tile in size, at the end of the ghosts. */
    method AddGhost(k: GhostKind, x: real, y: real)
      requires Distinct()
      modifies this
      ensures Value() == old(Value()).(ghosts := old(Value()).ghosts + [NewGhost(k, x, y, tileW, tileH)])
      ensures Distinct() && forall i :: 0 <= i < |ghosts| ==> ghosts[i] in old(ghosts) || fresh(ghosts[i])
      ensures pacman == old(pacman)
    {
      ghost var before := ValuesOf(ghosts);
      var g := new Ghost(k, x, y, tileW, tileH);
      ghosts := ghosts + [g];
      assert ValuesOf(ghosts) == before + [g.Value()];
    }

    /** Resets every ghost for a new life (the loop of World::resetPositions). */
    method ResetGhosts()
      requires Distinct()
      modifies ghosts
      ensures ValuesOf(ghosts) == ResetAll(old(ValuesOf(ghosts)))
    {
      var i := 0;
      while i < |ghosts|
        invariant 0 <= i <= |ghosts|
        invariant forall j :: 0 <= j < i ==> ghosts[j].Value() == ResetForDeath(old(ghosts[j].Value()))
        invariant forall j :: i <= j < |ghosts| ==> ghosts[j].Value() == old(ghosts[j].Value())
      {
        ghosts[i].ResetForPacmanDeath();
        i := i + 1;
      }
    }

    /** Despawns every ghost (the loop run when a chasing ghost catches Pacman). */
    method DespawnGhosts()
      requires Distinct()
      modifies ghosts
      ensures ValuesOf(ghosts) == HideAll(old(ValuesOf(ghosts)))
    {
      var i := 0;
      while i < |ghosts|
        invariant 0 <= i <= |ghosts|
        invariant forall j :: 0 <= j < i ==> ghosts[j].Value() == Hidden(old(ghosts[j].Value()))
        invariant forall j :: i <= j < |ghosts| ==> ghosts[j].Value() == old(ghosts[j].Value())
      {
        ghosts[i].Despawn();
        i := i + 1;
      }
    }

    /** Frightens every ghost for five seconds (the loop run for each fruit eaten). */
    method FrightenGhosts()
      requires Distinct()
      modifies ghosts
      ensures ValuesOf(ghosts) == FrightenAll(old(ValuesOf(ghosts)))
    {
      var i := 0;
      while i < |ghosts|
        invariant 0 <= i <= |ghosts|
        invariant forall j :: 0 <= j < i ==> ghosts[j].Value() == Frightened(old(ghosts[j].Value()), FruitFearDuration)
        invariant forall j :: i <= j < |ghosts| ==> ghosts[j].Value() == old(ghosts[j].Value())
      {
        ghosts[i].SetFeared(FruitFearDuration);
        i := i + 1;
      }
    }

    /** Gives every ghost base speed `s` (the loop of World::nextLevel). */
    method RebaseGhosts(s: real)
      requires Distinct()
      modifies ghosts
      ensures ValuesOf(ghosts) == Rebased(old(ValuesOf(ghosts)), s)
    {
      var i := 0;
      while i < |ghosts|
        invariant 0 <= i <= |ghosts|
        invariant forall j :: 0 <= j < i ==> ghosts[j].Value() == WithBaseSpeed(old(ghosts[j].Value()), s)
        invariant forall j :: i <= j < |ghosts| ==> ghosts[j].Value() == old(ghosts[j].Value())
      {
        ghosts[i].SetBaseSpeed(s);
        i := i + 1;
      }
    }

    /** World::resetPositions. */
    method ResetPositions()
      requires pacman != null && tileW > 0.0 && tileH > 0.0 && Distinct()
      modifies this, pacman, ghosts
      ensures pacman == old(pacman) && ghosts == old(ghosts)
      ensures Value() == WorldRules.ResetPositions(old(Value()))
    {
      RespawnPacman();
      ResetGhosts();
      waitingToRestart := true;
      gameStarted := false;
    }

    /** Pacman back at his spawn point, with the controller standing on the tile he is on. */
    method RespawnPacman()
      requires pacman != null && tileW > 0.0 && tileH > 0.0
      modifies this, pacman
      ensures pacman == old(pacman) && ghosts == old(ghosts)
      ensures var p := Respawned(old(pacman.Value()));
        Value() == old(Value()).(pac := LevelMap.Some(p), motion := TileMotion.StandingAt(TileAt(p.x, p.y, old(tileW), old(tileH))))
    {
      pacman.Respawn();
      tileX, tileY := TileIndex(pacman.x, tileW), TileIndex(pacman.y, tileH);
      tileProgress, moveDir, bufferedInput := 0.0, ' ', ' ';
    }

    /** World::nextLevel. */
    method NextLevel()
      requires Ready() && |mapLines| > 0 && |mapLines[0]| > 0
      modifies this, pacman, scoreSystem, ghosts
      ensures Ready()
      ensures Value() == WorldRules.NextLevel(old(Value()), mapLines)
    {
      ghost var w := Value();
      ClearLevel();
      Restock();
      assert WorldRules.Valid(Value()) by {
        NextLevelEffects(w, mapLines, Tile(0, 0));
      }
    }

    /** The level read again, its ghosts at the level's speed, Pacman respawned. */
    method Restock()
      requires pacman != null && |mapLines| > 0 && |mapLines[0]| > 0 && Distinct()
      modifies this, pacman, ghosts
      ensures pacman != null && Distinct()
      ensures Value() == Restocked(old(Value()), mapLines)
    {
      var speed := LevelSpeed(currentLevel);
      InitializeLevel();
      RebaseAll(speed);
      Reawaken();
    }

    /** Every ghost of the level given base speed `s`. */
    method RebaseAll(s: real)
      requires Distinct()
      modifies ghosts
      ensures Distinct() && pacman == old(pacman)
      ensures Value() == old(Value()).(ghosts := Rebased(old(Value()).ghosts, s))
    {
      RebaseGhosts(s);
    }

    /** Pacman respawned, and play waiting for a key. */
    method Reawaken()
      requires pacman != null
      modifies this, pacman
      ensures pacman == old(pacman) && ghosts == old(ghosts) && Distinct() == old(Distinct())
      ensures Value() == old(Value()).(pac := LevelMap.Some(Respawned(old(pacman.Value()))),
        waitingToRestart := true, gameStarted := false)
    {
      pacman.Respawn();
      waitingToRestart := true;
      gameStarted := false;
    }

    /** The clear bonus, the next level number, and the level's coins, fruits and ghosts gone. */
    method ClearLevel()
      requires scoreSystem.Valid()
      modifies this, scoreSystem
      ensures pacman == old(pacman) && ghosts == [] && scoreSystem.Valid()
      ensures Value() == Cleared(old(Value()))
    {
      scoreSystem.OnLevelCleared();
      currentLevel := currentLevel + 1;
      coins, fruits, ghosts := [], [], [];
      assert ValuesOf(ghosts) == [];
    }

    /** World::getLives. */
    function GetLives(): (n: int)
      reads this, pacman, scoreSystem, ghosts
      ensures n == Lives(Value())
    {
      if pacman != null then pacman.lives else 0
    }

    /** World::isGameOver. */
    predicate IsGameOver()
      reads this, pacman, scoreSystem, ghosts
      ensures IsGameOver() == GameOver(Value())
    {
      pacman != null && pacman.lives <= 0 && pacman.dying && pacman.IsDeathAnimationComplete()
    }

    /** World::isLevelComplete. */
    predicate IsLevelComplete()
      reads this, pacman, scoreSystem, ghosts
      ensures IsLevelComplete() == LevelComplete(Value())
    {
      |coins| == 0
    }

    /** World::getScore. */
    function GetScore(): (s: int)
      reads this, pacman, scoreSystem, ghosts
      ensures s == Value().score.total
    {
      scoreSystem.GetCurrentScore()
    }

    /** World::getCurrentLevel. */
    function GetCurrentLevel(): (n: int)
      reads this, pacman, scoreSystem, ghosts
      ensures n == Value().level
    {
      currentLevel
    }

    // -------------------------------------------------------------------------------------------
    // World::updatePacmanTileBased, one step at a time

    /** Step 1: a key other than "none" and ' ' is buffered. */
    method LatchInput(input: char)
      requires pacman != null
      modifies this
      ensures pacman == old(pacman) && ghosts == old(ghosts)
      ensures Value() == WithControl(old(Value()), TileMotion.Latch(ControlOf(old(Value())), input))
    {
      if input != TileMotion.NoInput && input != ' ' {
        bufferedInput := input;
      }
    }

    /** Steps 3 and 4: an instant reversal, or at a tile centre a turn into an open tile and a
        stop before a wall. */
    method SteerPacman()
      requires pacman != null
      modifies this, pacman
      ensures pacman == old(pacman) && ghosts == old(ghosts)
      ensures Value() == WithControl(old(Value()), TileMotion.Steer(ControlOf(old(Value())), walls))
    {
      var instantReversal := false;
      if bufferedInput != ' ' && moveDir != ' ' && tileProgress > 0.0 {
        if (moveDir == 'U' && bufferedInput == 'D') || (moveDir == 'D' && bufferedInput == 'U') ||
           (moveDir == 'L' && bufferedInput == 'R') || (moveDir == 'R' && bufferedInput == 'L') {
          ReversePacman();
          instantReversal := true;
        }
      }
      if !instantReversal && tileProgress == 0.0 {
        TurnPacman();
        StopPacman();
      }
    }

    /** Step 3: the next tile becomes the current one, the direction flips and the progress is
        mirrored. */
    method ReversePacman()
      requires pacman != null
      modifies this, pacman
      ensures pacman == old(pacman) && ghosts == old(ghosts) && walls == old(walls)
      ensures Value() == WithControl(old(Value()), TileMotion.Reverse(ControlOf(old(Value()))))
    {
      var next := StepTile(Tile(tileX, tileY), moveDir);
      SetMotion(TileMotion.Motion(next, 1.0 - tileProgress, bufferedInput, ' '));
      pacman.SetDirection(moveDir);
    }

    /** The controller's tile, progress, direction and buffered key replaced by `m`. */
    method SetMotion(m: TileMotion.Motion)
      modifies this
      ensures pacman == old(pacman) && ghosts == old(ghosts) && walls == old(walls)
      ensures Value() == old(Value()).(motion := m)
    {
      tileX, tileY, tileProgress, moveDir, bufferedInput := m.tile.x, m.tile.y, m.progress, m.dir, m.buffered;
    }

    /** Step 4, first half: a buffered turn into an open tile is taken. */
    method TurnPacman()
      requires pacman != null
      modifies this, pacman
      ensures pacman == old(pacman) && ghosts == old(ghosts) && walls == old(walls)
      ensures Value() == WithControl(old(Value()), TileMotion.Turn(ControlOf(old(Value())), walls))
    {
      if bufferedInput != ' ' && bufferedInput != moveDir {
        var target := StepTile(Tile(tileX, tileY), bufferedInput);
        if !TileMotion.IsWall(walls, target) {
          moveDir := bufferedInput;
          bufferedInput := ' ';
          pacman.SetDirection(moveDir);
        }
      }
    }

    /** Step 4, second half: a direction into a wall is dropped. */
    method StopPacman()
      requires pacman != null
      modifies this, pacman
      ensures pacman == old(pacman) && ghosts == old(ghosts) && walls == old(walls)
      ensures Value() == WithControl(old(Value()), TileMotion.Stop(ControlOf(old(Value())), walls))
    {
      if moveDir != ' ' {
        var target := StepTile(Tile(tileX, tileY), moveDir);
        if TileMotion.IsWall(walls, target) {
          moveDir := ' ';
          pacman.SetDirection(' ');
          pacman.SetMoving(false);
        }
      }
    }

    /** Step 5: progress along the current direction, entering the next tile at 1. */
    method AdvancePacman(dt: real)
      requires pacman != null
      modifies this, pacman
      ensures pacman == old(pacman) && ghosts == old(ghosts)
      ensures Value() == WithControl(old(Value()), TileMotion.Advance(ControlOf(old(Value())), dt))
    {
      if moveDir != ' ' {
        tileProgress := tileProgress + TileMotion.TilesPerSecond * dt;
        pacman.SetMoving(true);
        if tileProgress >= 1.0 {
          var next := StepTile(Tile(tileX, tileY), moveDir);
          tileX, tileY := next.x, next.y;
          tileProgress := 0.0;
        }
      } else {
        pacman.SetMoving(false);
      }
    }

    /** Step 6: Pacman is drawn between its tile's centre and the next one's. */
    method PlacePacman()
      requires pacman != null
      modifies pacman
      ensures Value() == old(Value()).(pac := LevelMap.Some(old(pacman.Value()).(
        x := TileMotion.Render(Motion(), tileW, tileH).0, y := TileMotion.Render(Motion(), tileW, tileH).1)))
    {
      var position := TileMotion.Render(Motion(), tileW, tileH);
      pacman.SetPosition(position.0, position.1);
    }

    /** World::updatePacmanTileBased. */
    method UpdatePacmanTileBased(dt: real, input: char)
      requires pacman != null
      modifies this, pacman
      ensures pacman == old(pacman) && ghosts == old(ghosts)
      ensures Value() == Steered(old(Value()), input, dt)
    {
      ghost var w := Value();
      LatchInput(input);
      SteerPacman();
      AdvancePacman(dt);
      PlacePacman();
      ghost var a := TileMotion.Advance(TileMotion.Steer(TileMotion.Latch(ControlOf(w), input), walls), dt);
      assert Motion() == a.motion;
    }

    // -------------------------------------------------------------------------------------------
    // The rest of World::update

    /** The ghost loop: each ghost touching Pacman is eaten when feared, or catches him when
        chasing, which ends the loop with Pacman dying and every ghost despawned; every other
        ghost is updated with its legal directions. */
    method RunGhosts(dt: real, rng: Rng, root: real -> real) returns (rest: Rng, caught: bool)
      requires Ready()
      modifies pacman, scoreSystem, ghosts, this
      ensures pacman == old(pacman) && ghosts == old(ghosts) && Distinct()
      ensures caught == Chase(old(Value()), dt, rng, root).caught
      ensures rest == Chase(old(Value()), dt, rng, root).rng
      ensures caught ==> Value() == Caught(old(Value()), Chase(old(Value()), dt, rng, root))
      ensures !caught ==> Value() == Survived(old(Value()), Chase(old(Value()), dt, rng, root))
    {
      ghost var w := Value();
      var i;
      rest, caught, i := PassGhosts(w, dt, rng, root);
      assert Value() == w.(ghosts := ValuesOf(ghosts), score := scoreSystem.Value());
      if caught {
        ghost var p := Pass(ValuesOf(ghosts), scoreSystem.Value(), rest, false);
        ChaseCaughtAt(w, p, i, dt, root);
        CatchPacman();
      }
    }

    /** The ghost loop up to its end or to the ghost that catches Pacman, on the world value `w`
        it started from: the ghosts and the score are those of the pass so far. */
    method PassGhosts(ghost w: WorldValue, dt: real, rng: Rng, root: real -> real)
      returns (rest: Rng, caught: bool, i: nat)
      requires pacman != null && Distinct() && scoreSystem.Valid() && WorldRules.Valid(w)
      requires w.pac == LevelMap.Some(pacman.Value()) && w.walls == walls
      requires w.tileW == tileW && w.tileH == tileH
      requires w.ghosts == ValuesOf(ghosts) && w.score == scoreSystem.Value()
      modifies scoreSystem, ghosts
      ensures scoreSystem.Valid() && i <= |ghosts|
      ensures PassOk(Pass(ValuesOf(ghosts), scoreSystem.Value(), rest, false))
      ensures !caught ==> Pass(ValuesOf(ghosts), scoreSystem.Value(), rest, false) == Chase(w, dt, rng, root)
      ensures caught ==>
        ChaseFrom(w, Pass(ValuesOf(ghosts), scoreSystem.Value(), rest, false), i, dt, root) == Chase(w, dt, rng, root) &&
        i < |ghosts| && ghosts[i].state == CHASING &&
        Entities.IntersectsPickup(PacBox(w.pac.value), GhostBox(ValuesOf(ghosts)[i]))
    {
      rest := rng;
      caught := false;
      i := 0;
      while i < |ghosts|
        invariant 0 <= i <= |ghosts| && !caught
        invariant PassOk(Pass(ValuesOf(ghosts), scoreSystem.Value(), rest, false))
        invariant scoreSystem.Valid()
        invariant ChaseFrom(w, Pass(ValuesOf(ghosts), scoreSystem.Value(), rest, false), i, dt, root) == Chase(w, dt, rng, root)
      {
        rest, caught := MeetGhost(w, i, dt, rest, root);
        if caught {
          break;
        }
        i := i + 1;
      }
    }

    /** One round of the ghost loop for ghost `i`: either it catches Pacman, and nothing
        changes, or the pass moves on to the next ghost. */
    method MeetGhost(ghost w: WorldValue, i: nat, dt: real, rng: Rng, root: real -> real)
      returns (rest: Rng, caught: bool)
      requires pacman != null && Distinct() && scoreSystem.Valid() && w.tileW > 0.0 && w.tileH > 0.0
      requires w.pac == LevelMap.Some(pacman.Value()) && w.walls == walls
      requires w.tileW == tileW && w.tileH == tileH && i < |ghosts|
      requires PassOk(Pass(ValuesOf(ghosts), scoreSystem.Value(), rng, false))
      modifies scoreSystem, ghosts[i]
      ensures scoreSystem.Valid() && PassOk(Pass(ValuesOf(ghosts), scoreSystem.Value(), rest, false))
      ensures caught ==>
        ghosts[i].state == CHASING && Entities.IntersectsPickup(PacBox(w.pac.value), GhostBox(ValuesOf(ghosts)[i]))
      ensures ChaseFrom(w, Pass(old(ValuesOf(ghosts)), old(scoreSystem.Value()), rng, false), i, dt, root) ==
        ChaseFrom(w, Pass(ValuesOf(ghosts), scoreSystem.Value(), rest, false), if caught then i else i + 1, dt, root)
    {
      ghost var p := Pass(ValuesOf(ghosts), scoreSystem.Value(), rng, false);
      var g := ghosts[i];
      var touching := Entities.IntersectsPickup(PacBox(pacman.Value()), GhostBox(g.Value()));
      if touching && g.state == CHASING {
        rest, caught := rng, true;
      } else {
        rest := TurnGhost(w, p, i, dt, rng, root, touching);
        caught := false;
      }
    }

    /** The body of the ghost loop for a ghost that does not catch Pacman: one that is touched
        while feared is eaten, then the ghost moves. */
    method TurnGhost(ghost w: WorldValue, ghost p: Pass, i: nat, dt: real, rng: Rng, root: real -> real, touching: bool)
      returns (rest: Rng)
      requires pacman != null && Distinct() && scoreSystem.Valid() && w.tileW > 0.0 && w.tileH > 0.0
      requires w.pac == LevelMap.Some(pacman.Value()) && w.walls == walls
      requires w.tileW == tileW && w.tileH == tileH && i < |ghosts|
      requires p == Pass(ValuesOf(ghosts), scoreSystem.Value(), rng, false) && PassOk(p)
      requires touching == Entities.IntersectsPickup(PacBox(w.pac.value), GhostBox(p.ghosts[i]))
      requires !(touching && ghosts[i].state == CHASING)
      modifies scoreSystem, ghosts[i]
      ensures scoreSystem.Valid()
      ensures Pass(ValuesOf(ghosts), scoreSystem.Value(), rest, false) ==
        GhostTurn(p, i, w.pac.value, w.walls, w.tileW, w.tileH, dt, root)
    {
      var g := ghosts[i];
      if touching && g.state == FEARED {
        scoreSystem.OnGhostEaten();
        g.Die();
      }
      var valid := ValidMoves(g.Value(), walls, tileW, tileH);
      rest := g.Update(valid, PacView(pacman.x, pacman.y, pacman.direction), dt, rng, root);
      assert ValuesOf(ghosts) == p.ghosts[i := g.Value()];
    }

    /** A chasing ghost has caught Pacman: he dies, every ghost despawns, fruit mode ends. */
    method CatchPacman()
      requires pacman != null && Distinct()
      modifies this, pacman, ghosts
      ensures pacman == old(pacman) && ghosts == old(ghosts)
      ensures Value() == old(Value()).(ghosts := HideAll(old(Value()).ghosts),
        pac := LevelMap.Some(Died(old(pacman.Value()))), inFruitMode := false)
    {
      KillPacman();
      DespawnGhosts();
      inFruitMode := false;
    }

    /** Pacman starts dying. */
    method KillPacman()
      requires pacman != null
      modifies pacman
      ensures Value() == old(Value()).(pac := LevelMap.Some(Died(old(pacman.Value()))))
    {
      pacman.Die();
    }

    /** Coin collection: every coin Pacman's half-size box touches is scored and removed. */
    method CollectCoins(dt: real)
      requires pacman != null && scoreSystem.Valid()
      modifies this, scoreSystem
      ensures pacman == old(pacman) && ghosts == old(ghosts) && scoreSystem.Valid()
      ensures Value() == CoinsCollected(old(Value()), dt)
    {
      var kept := EatCoins(scoreSystem, coins, PacBox(pacman.Value()), dt);
      coins := kept;
    }

    /** Fruit collection: every fruit touched is scored and removed, frightens every ghost, and
        turns fruit mode on. */
    method CollectFruits()
      requires pacman != null && scoreSystem.Valid() && Distinct()
      modifies this, scoreSystem, ghosts
      ensures pacman == old(pacman) && ghosts == old(ghosts) && scoreSystem.Valid()
      ensures Value() == FruitsCollected(old(Value()))
    {
      var kept, eaten := EatFruits(PacBox(pacman.Value()));
      fruits := kept;
      if eaten {
        inFruitMode := true;
      }
    }

    /** The fruit loop: the fruits box `box` does not touch; each touched one is scored and
        frightens every ghost; `eaten` tells whether any was. */
    method EatFruits(box: Entities.Box) returns (kept: seq<Entities.Box>, eaten: bool)
      requires scoreSystem.Valid() && Distinct()
      modifies scoreSystem, ghosts
      ensures scoreSystem.Valid() && kept == Kept(fruits, box) && (eaten <==> |fruits| - |kept| > 0)
      ensures scoreSystem.Value() == Times(old(scoreSystem.Value()), Scoring.FruitCollected, |fruits| - |kept|)
      ensures ValuesOf(ghosts) == FrightenedTimes(old(ValuesOf(ghosts)), |fruits| - |kept|)
    {
      ghost var s0 := scoreSystem.Value();
      ghost var g0 := ValuesOf(ghosts);
      kept := [];
      eaten := false;
      ghost var count: nat := 0;
      var i := 0;
      while i < |fruits|
        invariant 0 <= i <= |fruits|
        invariant kept == Kept(fruits[..i], box) && count == i - |kept|
        invariant scoreSystem.Valid() && scoreSystem.Value() == Times(s0, Scoring.FruitCollected, count)
        invariant ValuesOf(ghosts) == FrightenedTimes(g0, count)
        invariant eaten <==> count > 0
      {
        assert fruits[..i + 1][..i] == fruits[..i];
        if Entities.IntersectsPickup(box, fruits[i]) {
          scoreSystem.OnFruitCollected();
          eaten := true;
          FrightenGhosts();
          count := count + 1;
        } else {
          kept := kept + [fruits[i]];
        }
        i := i + 1;
      }
      assert fruits[..i] == fruits;
    }

    /** The fruit-mode check that ends a frame: fruit mode ends once no ghost is feared. */
    method CheckFruitMode()
      modifies this
      ensures pacman == old(pacman) && ghosts == old(ghosts)
      ensures Value() == FruitModeChecked(old(Value()))
    {
      if inFruitMode {
        var anyFeared := false;
        var i := 0;
        while i < |ghosts|
          invariant 0 <= i <= |ghosts|
          invariant forall j :: 0 <= j < i ==> ghosts[j].state != FEARED
        {
          if ghosts[i].state == FEARED {
            anyFeared := true;
            break;
          }
          i := i + 1;
        }
        assert anyFeared <==> AnyFeared(ValuesOf(ghosts)) by {
          if anyFeared {
            assert ValuesOf(ghosts)[i].state == FEARED;
          }
        }
        if !anyFeared {
          inFruitMode := false;
        }
      }
    }

    /** World::update for a frame of length `dt` with key `input`, drawing on the random stream
        `rng`; what is left of the stream is returned. */
    method Update(input: char, dt: real, rng: Rng, root: real -> real) returns (rest: Rng)
      requires Ready()
      modifies this, pacman, scoreSystem, ghosts
      ensures Ready()
      ensures Value() == Frame(old(Value()), input, dt, rng, root).world
      ensures rest == Frame(old(Value()), input, dt, rng, root).rng
    {
      ghost var w := Value();
      rest := rng;
      TickScore(dt);
      if pacman.dying {
        AnimateDeath(dt);
      } else {
        var play := PassGates(input);
        if play {
          rest := PlayFrame(input, dt, rng, root);
        }
      }
      assert WorldRules.Valid(Value()) by {
        FrameKeepsValid(w, input, dt, rng, root);
      }
    }

    /** The score's coin timer runs on. */
    method TickScore(dt: real)
      requires scoreSystem.Valid()
      modifies scoreSystem
      ensures scoreSystem.Valid()
      ensures Value() == old(Value()).(score := Scoring.Apply(old(Value()).score, Scoring.Tick(dt)))
    {
      scoreSystem.Update(dt);
    }

    /** The branch for a dying Pacman: the animation runs, and once it completes with lives left
        the death is scored and the positions are reset. */
    method AnimateDeath(dt: real)
      requires pacman != null && tileW > 0.0 && tileH > 0.0 && Distinct() && scoreSystem.Valid()
      modifies this, pacman, scoreSystem, ghosts
      ensures pacman == old(pacman) && ghosts == old(ghosts) && scoreSystem.Valid()
      ensures Value() == DeathStep(old(Value()), dt)
    {
      PlayDeath(dt);
      if pacman.IsDeathAnimationComplete() {
        if pacman.lives > 0 {
          ScoreDeath();
          ResetPositions();
        }
      }
    }

    /** Pacman's own update while dying. */
    method PlayDeath(dt: real)
      requires pacman != null
      modifies pacman
      ensures Value() == old(Value()).(pac := LevelMap.Some(Updated(old(pacman.Value()), dt)))
    {
      pacman.Update(dt);
    }

    /** A lost life resets the combo and the coin timer. */
    method ScoreDeath()
      requires scoreSystem.Valid()
      modifies scoreSystem
      ensures scoreSystem.Valid()
      ensures Value() == old(Value()).(score := Scoring.Apply(old(Value()).score, Scoring.PacmanDied))
    {
      scoreSystem.OnPacmanDied();
    }

    /** The two start gates: after a reset, and before the first key of a level, nothing moves
        until a key is pressed; a key clears the wait and starts the game. */
    method PassGates(input: char) returns (play: bool)
      modifies this
      ensures pacman == old(pacman) && ghosts == old(ghosts)
      ensures play == Plays(old(Value()), input)
      ensures Value() == if play then old(Value()).(waitingToRestart := false, gameStarted := true) else old(Value())
    {
      play := true;
      if waitingToRestart {
        if input != TileMotion.NoInput && input != ' ' {
          waitingToRestart := false;
          gameStarted := true;
        } else {
          play := false;
        }
      }
      if play && !gameStarted {
        if input != TileMotion.NoInput && input != ' ' {
          gameStarted := true;
        } else {
          play := false;
        }
      }
    }

    /** A frame of play: Pacman moves on the tiles, the ghost loop runs, and unless a ghost
        caught Pacman the coins and fruits are collected and fruit mode is checked. */
    method PlayFrame(input: char, dt: real, rng: Rng, root: real -> real) returns (rest: Rng)
      requires Ready()
      modifies this, pacman, scoreSystem, ghosts
      ensures pacman == old(pacman) && ghosts == old(ghosts)
      ensures Value() == Play(old(Value()), input, dt, rng, root).world
      ensures rest == Play(old(Value()), input, dt, rng, root).rng
    {
      UpdatePacmanTileBased(dt, input);
      var caught;
      rest, caught := RunGhosts(dt, rng, root);
      if !caught {
        CollectPickups(dt);
      }
    }

    /** Coin and fruit collection and the fruit-mode check. */
    method CollectPickups(dt: real)
      requires pacman != null && scoreSystem.Valid() && Distinct()
      modifies this, scoreSystem, ghosts
      ensures pacman == old(pacman) && ghosts == old(ghosts)
      ensures Value() == Pickups(old(Value()), dt)
    {
      CollectCoins(dt);
      CollectFruits();
      CheckFruitMode();
    }
  }
}
