/** The ghost state machine shared by the four personalities: WAITING, CHASING, FEARED, DEAD and
    DESPAWNED, with their timers, speed scaling and grid-aligned movement. */
module Ghosts {
  import opened Grid
  import opened Randomness
  import opened GhostAI
  import Entities

  datatype GhostState = WAITING | CHASING | FEARED | DEAD | DESPAWNED

  /** Ghost::getStateInt: the enumerator's position in the declaration. */
  function StateInt(s: GhostState): (i: int)
    ensures 0 <= i <= 4
    ensures s == WAITING ==> i == 0
    ensures s == CHASING ==> i == 1
    ensures s == FEARED ==> i == 2
    ensures s == DEAD ==> i == 3
    ensures s == DESPAWNED ==> i == 4
  {
    match s
    case WAITING => 0
    case CHASING => 1
    case FEARED => 2
    case DEAD => 3
    case DESPAWNED => 4
  }

  lemma StateIntInjective(a: GhostState, b: GhostState)
    ensures StateInt(a) == StateInt(b) <==> a == b
  {
  }

  const DefaultSpeed: real := 0.30
  const FearedFactor: real := 0.5
  const DeadFactor: real := 2.5
  /** A returning ghost closer than this to its spawn point snaps onto it. */
  const SnapDistance: real := 0.1

  /** All fields of a ghost, its entity box included. */
  datatype GhostValue = GhostValue(
    kind: GhostKind, state: GhostState,
    x: real, y: real, width: real, height: real,
    direction: char, speed: real, baseSpeed: real,
    startX: real, startY: real,
    spawnTimer: real, originalSpawnTime: real, fearedTimer: real)

  /** A ghost of `kind` built at (x, y): waiting for its kind's wait time, at the default speed. */
  function NewGhost(kind: GhostKind, x: real, y: real, w: real, h: real): (g: GhostValue)
    ensures g.state == WAITING && g.direction == ' ' && g.fearedTimer == 0.0
    ensures g.speed == DefaultSpeed && g.baseSpeed == DefaultSpeed
    ensures g.spawnTimer == WaitTime(kind) && g.originalSpawnTime == WaitTime(kind)
    ensures g.startX == g.x == x && g.startY == g.y == y && g.kind == kind
  {
    GhostValue(kind, WAITING, x, y, w, h, ' ', DefaultSpeed, DefaultSpeed, x, y, WaitTime(kind), WaitTime(kind), 0.0)
  }

  /** The speed each state runs at: the base speed waiting or chasing, half of it feared, two and
      a half times it dead; a despawned ghost keeps the speed of the state it left. */
  predicate SpeedConsistent(g: GhostValue)
  {
    match g.state
    case WAITING => g.speed == g.baseSpeed
    case CHASING => g.speed == g.baseSpeed
    case FEARED => g.speed == g.baseSpeed * FearedFactor
    case DEAD => g.speed == g.baseSpeed * DeadFactor
    case DESPAWNED =>
      g.speed == g.baseSpeed || g.speed == g.baseSpeed * FearedFactor || g.speed == g.baseSpeed * DeadFactor
  }

  /** Ghost::setFeared: a ghost that is neither dead nor waiting turns FEARED for `duration`
      seconds at half speed and reverses; dead and waiting ghosts are unaffected. */
  function Frightened(g: GhostValue, duration: real): (r: GhostValue)
    ensures g.state == DEAD || g.state == WAITING ==> r == g
    ensures g.state != DEAD && g.state != WAITING ==>
      r.state == FEARED && r.fearedTimer == duration && r.speed == g.baseSpeed * FearedFactor &&
      r.direction == Opposite(g.direction) && r.x == g.x && r.y == g.y && r.baseSpeed == g.baseSpeed
    ensures r.(state := g.state, fearedTimer := g.fearedTimer, speed := g.speed, direction := g.direction) == g
  {
    if g.state != DEAD && g.state != WAITING then
      g.(state := FEARED, fearedTimer := duration, speed := g.baseSpeed * FearedFactor,
         direction := Opposite(g.direction))
    else g
  }

  /** Ghost::die: DEAD at two and a half times the base speed; nothing else changes. */
  function Killed(g: GhostValue): (r: GhostValue)
    ensures r.state == DEAD && r.speed == g.baseSpeed * DeadFactor
    ensures r.(state := g.state, speed := g.speed) == g
  {
    g.(state := DEAD, speed := g.baseSpeed * DeadFactor)
  }

  /** Ghost::despawn: DESPAWNED with no direction; nothing else changes. */
  function Hidden(g: GhostValue): (r: GhostValue)
    ensures r.state == DESPAWNED && r.direction == ' '
    ensures r.(state := g.state, direction := g.direction) == g
  {
    g.(state := DESPAWNED, direction := ' ')
  }

  /** Ghost::resetForPacmanDeath: back to the spawn point, waiting its original time again. */
  function ResetForDeath(g: GhostValue): (r: GhostValue)
    ensures r.state == WAITING && r.speed == g.baseSpeed && r.direction == ' '
    ensures r.x == g.startX && r.y == g.startY
    ensures r.spawnTimer == g.originalSpawnTime && r.fearedTimer == 0.0
    ensures r.baseSpeed == g.baseSpeed && r.kind == g.kind && r.width == g.width && r.height == g.height
    ensures r.(state := g.state, speed := g.speed, x := g.x, y := g.y, direction := g.direction,
               spawnTimer := g.spawnTimer, fearedTimer := g.fearedTimer) == g
  {
    g.(state := WAITING, speed := g.baseSpeed, x := g.startX, y := g.startY, direction := ' ',
       spawnTimer := g.originalSpawnTime, fearedTimer := 0.0)
  }

  /** Ghost::setBaseSpeed: both the base and the current speed. */
  function WithBaseSpeed(g: GhostValue, s: real): (r: GhostValue)
    ensures r.baseSpeed == s && r.speed == s
    ensures r.(baseSpeed := g.baseSpeed, speed := g.speed) == g
  {
    g.(baseSpeed := s, speed := s)
  }

  /** The direction choice the ghost makes at a decision point: random while feared, the kind's
      own decideDirection otherwise. */
  function Choice(g: GhostValue, valid: seq<char>, pac: PacView, rng: Rng): (r: (char, Rng))
    ensures |valid| == 0 ==> r == (' ', rng)
    ensures |valid| > 0 ==> r.0 in valid
    ensures Consumed(rng, r.1)
  {
    if g.state == FEARED then PickRandom(valid, rng)
    else Decide(g.kind, g.x, g.y, g.direction, pac, valid, rng)
  }

  /** Whether moving in `dir` approaches the tile centre (cx, cy), and how far away it is. */
  function Approach(dir: char, x: real, y: real, cx: real, cy: real): (bool, real)
  {
    match dir
    case 'U' => (y > cy, Abs(y - cy))
    case 'D' => (y < cy, Abs(y - cy))
    case 'L' => (x > cx, Abs(x - cx))
    case 'R' => (x < cx, Abs(x - cx))
    case _ => (false, 0.0)
  }

  /** Axis locking: a ghost moving vertically sits on the centre column, one moving horizontally
      on the centre row. */
  function AxisLock(g: GhostValue, cx: real, cy: real): (r: GhostValue)
    ensures g.direction == 'U' || g.direction == 'D' ==> r == g.(x := cx)
    ensures g.direction == 'L' || g.direction == 'R' ==> r == g.(y := cy)
    ensures !IsDir(g.direction) ==> r == g
  {
    if g.direction == 'U' || g.direction == 'D' then g.(x := cx)
    else if g.direction == 'L' || g.direction == 'R' then g.(y := cy)
    else g
  }

  /** Grid movement of Ghost::update (steps 2 to 4): pick a first direction if there is none,
      then advance. */
  function Travel(g: GhostValue, valid: seq<char>, pac: PacView, dt: real, rng: Rng): (r: (GhostValue, Rng))
    requires g.width > 0.0 && g.height > 0.0
    ensures r.0.(x := g.x, y := g.y, direction := g.direction) == g
    ensures Consumed(rng, r.1)
    ensures r.0.direction == g.direction || r.0.direction in valid || (r.0.direction == ' ' && |valid| == 0)
    ensures r.0.direction == 'U' || r.0.direction == 'D' ==> r.0.x == GridCenter(g.x, g.width)
    ensures r.0.direction == 'L' || r.0.direction == 'R' ==> r.0.y == GridCenter(g.y, g.height)
  {
    var first := if g.direction == ' ' then Choice(g, valid, pac, rng) else (g.direction, rng);
    var r := Advance(g.(direction := first.0), valid, pac, dt, first.1);
    ConsumedTransitive(rng, first.1, r.1);
    r
  }

  /** The centre of the tile the ghost is in. */
  function Centre(g: GhostValue): (real, real)
    requires g.width > 0.0 && g.height > 0.0
  {
    (GridCenter(g.x, g.width), GridCenter(g.y, g.height))
  }

  /** Whether the ghost's direction takes it towards its tile centre, and how far that is. */
  function Approaching(g: GhostValue): (bool, real)
    requires g.width > 0.0 && g.height > 0.0
  {
    Approach(g.direction, g.x, g.y, Centre(g).0, Centre(g).1)
  }

  /** The way ahead is shut and the centre is already behind. */
  predicate Blocked(g: GhostValue, valid: seq<char>)
    requires g.width > 0.0 && g.height > 0.0
  {
    g.direction !in valid && !Approaching(g).0
  }

  /** The ghost reaches its tile centre within this frame's travel. */
  predicate ReachesCentre(g: GhostValue, dt: real)
    requires g.width > 0.0 && g.height > 0.0
  {
    Approaching(g).0 && g.speed * dt >= Approaching(g).1
  }

  /** Heading in its current direction: if the way is shut and the centre is behind, snap to
      the centre and choose again; if the centre is reached this frame, snap, choose again and
      carry the overshoot into the new direction; otherwise keep going. Except after a blocked
      snap, the ghost is then locked to the centre line of the tile it started in. */
  function Advance(g: GhostValue, valid: seq<char>, pac: PacView, dt: real, rng: Rng): (r: (GhostValue, Rng))
    requires g.width > 0.0 && g.height > 0.0
    ensures r.0.(x := g.x, y := g.y, direction := g.direction) == g
    ensures Consumed(rng, r.1)
    ensures r.0.direction == g.direction || r.0.direction in valid || (r.0.direction == ' ' && |valid| == 0)
    ensures r.0.direction == 'U' || r.0.direction == 'D' ==> r.0.x == GridCenter(g.x, g.width)
    ensures r.0.direction == 'L' || r.0.direction == 'R' ==> r.0.y == GridCenter(g.y, g.height)
  {
    var c := Centre(g);
    if Blocked(g, valid) then
      Turned(g.(x := c.0, y := c.1), valid, pac, rng)
    else if ReachesCentre(g, dt) then
      var t := Turned(g.(x := c.0, y := c.1), valid, pac, rng);
      (AxisLock(Overshot(t.0, g.speed * dt - Approaching(g).1), c.0, c.1), t.1)
    else
      (AxisLock(Overshot(g, g.speed * dt), c.0, c.1), rng)
  }

  /** The cases of Advance, one equation each. */
  lemma AdvanceBlocked(g: GhostValue, valid: seq<char>, pac: PacView, dt: real, rng: Rng)
    requires g.width > 0.0 && g.height > 0.0 && Blocked(g, valid)
    ensures var t := Turned(g.(x := Centre(g).0, y := Centre(g).1), valid, pac, rng);
      Advance(g, valid, pac, dt, rng).0 == t.0 && Advance(g, valid, pac, dt, rng).1 == t.1
  {
  }

  lemma AdvanceTurns(g: GhostValue, valid: seq<char>, pac: PacView, dt: real, rng: Rng)
    requires g.width > 0.0 && g.height > 0.0 && !Blocked(g, valid) && ReachesCentre(g, dt)
    ensures var t := Turned(g.(x := Centre(g).0, y := Centre(g).1), valid, pac, rng);
      Advance(g, valid, pac, dt, rng).0 == AxisLock(Overshot(t.0, g.speed * dt - Approaching(g).1), Centre(g).0, Centre(g).1) &&
      Advance(g, valid, pac, dt, rng).1 == t.1
  {
  }

  lemma AdvanceAhead(g: GhostValue, valid: seq<char>, pac: PacView, dt: real, rng: Rng)
    requires g.width > 0.0 && g.height > 0.0 && !Blocked(g, valid) && !ReachesCentre(g, dt)
    ensures Advance(g, valid, pac, dt, rng).0 == AxisLock(Overshot(g, g.speed * dt), Centre(g).0, Centre(g).1)
    ensures Advance(g, valid, pac, dt, rng).1 == rng
  {
  }

  /** A new direction chosen where the ghost stands. */
  function Turned(g: GhostValue, valid: seq<char>, pac: PacView, rng: Rng): (r: (GhostValue, Rng))
  {
    var c := Choice(g, valid, pac, rng);
    (g.(direction := c.0), c.1)
  }

  /** The ghost moved `dist` along its direction. */
  function Overshot(g: GhostValue, dist: real): (r: GhostValue)
  {
    var p := Moved(g.x, g.y, g.direction, dist);
    g.(x := p.0, y := p.1)
  }

  /** The straight-line distance from a ghost to its spawn point, `root` standing for the
      square root. */
  function SpawnDistance(g: GhostValue, root: real -> real): real
  {
    root((g.startX - g.x) * (g.startX - g.x) + (g.startY - g.y) * (g.startY - g.y))
  }

  /** The DEAD branch of Ghost::update: within SnapDistance of spawn the ghost snaps onto it and
      chases again at base speed with no direction; otherwise it moves speed·2.5·dt along the
      straight line to spawn. `root` stands for the square root of the squared distance. */
  function ReturnHome(g: GhostValue, dt: real, root: real -> real): (r: GhostValue)
  {
    var dist := SpawnDistance(g, root);
    if dist < SnapDistance then
      g.(state := CHASING, speed := g.baseSpeed, x := g.startX, y := g.startY, direction := ' ')
    else
      var move := g.speed * DeadFactor * dt;
      g.(x := g.x + ((g.startX - g.x) / dist) * move, y := g.y + ((g.startY - g.y) / dist) * move)
  }

  /** The timer phase of Ghost::update for a waiting or feared ghost: a waiting ghost counts
      its spawn timer down and starts chasing once it reaches zero; a feared ghost counts its
      fear down and, once it reaches zero, chases again at base speed. */
  function Timed(g: GhostValue, dt: real): (r: GhostValue)
  {
    match g.state
    case WAITING =>
      var t := g.spawnTimer - dt;
      if t <= 0.0 then g.(spawnTimer := t, state := CHASING) else g.(spawnTimer := t)
    case FEARED =>
      var f := g.fearedTimer - dt;
      if f <= 0.0 then g.(fearedTimer := f, state := CHASING, speed := g.baseSpeed)
      else g.(fearedTimer := f)
    case _ => g
  }

  /** Ghost::update for one frame of length `dt`: despawned ghosts are frozen, dead ones head
      home, the others run their timers and, unless still waiting, move on the grid. */
  function Stepped(g: GhostValue, valid: seq<char>, pac: PacView, dt: real, rng: Rng, root: real -> real): (r: (GhostValue, Rng))
    requires g.width > 0.0 && g.height > 0.0
    ensures Consumed(rng, r.1)
    ensures r.0.kind == g.kind && r.0.baseSpeed == g.baseSpeed && r.0.width == g.width && r.0.height == g.height
    ensures r.0.startX == g.startX && r.0.startY == g.startY && r.0.originalSpawnTime == g.originalSpawnTime
  {
    if g.state == DESPAWNED then (g, rng)
    else if g.state == DEAD then (ReturnHome(g, dt, root), rng)
    else
      var g1 := Timed(g, dt);
      if g1.state == WAITING then (g1, rng) else Travel(g1, valid, pac, dt, rng)
  }

  /** Every operation keeps each state at its speed, as long as setBaseSpeed is only applied to
      a waiting or chasing ghost (the world applies it to freshly built ghosts). */
  lemma SpeedInvariant(g: GhostValue, duration: real, s: real, valid: seq<char>, pac: PacView,
                         dt: real, rng: Rng, root: real -> real)
    requires SpeedConsistent(g) && g.width > 0.0 && g.height > 0.0
    ensures SpeedConsistent(Frightened(g, duration))
    ensures SpeedConsistent(Killed(g))
    ensures SpeedConsistent(Hidden(g))
    ensures SpeedConsistent(ResetForDeath(g))
    ensures g.state == WAITING || g.state == CHASING ==> SpeedConsistent(WithBaseSpeed(g, s))
    ensures SpeedConsistent(Stepped(g, valid, pac, dt, rng, root).0)
  {
    var r := Stepped(g, valid, pac, dt, rng, root).0;
    match g.state {
      case DESPAWNED =>
      case WAITING =>
        var t := g.spawnTimer - dt;
        if t <= 0.0 {
          assert r.state == CHASING && r.speed == g.speed;
        }
      case FEARED =>
        var f := g.fearedTimer - dt;
        if f <= 0.0 {
          assert r.state == CHASING && r.speed == g.baseSpeed;
        } else {
          assert r.state == FEARED && r.speed == g.speed;
        }
      case DEAD =>
      case CHASING =>
        assert r.state == CHASING && r.speed == g.speed;
    }
  }

  /** A despawned ghost does not move, turn or draw. */
  lemma DespawnedIsFrozen(g: GhostValue, valid: seq<char>, pac: PacView, dt: real, rng: Rng, root: real -> real)
    requires g.width > 0.0 && g.height > 0.0 && g.state == DESPAWNED
    ensures Stepped(g, valid, pac, dt, rng, root) == (g, rng)
  {
  }

  /** A waiting ghost counts down; it stays exactly where it is until the count reaches zero,
      and then chases in the same frame. */
  lemma WaitingCountsDown(g: GhostValue, valid: seq<char>, pac: PacView, dt: real, rng: Rng, root: real -> real)
    requires g.width > 0.0 && g.height > 0.0 && g.state == WAITING
    ensures g.spawnTimer - dt > 0.0 ==>
      Stepped(g, valid, pac, dt, rng, root) == (g.(spawnTimer := g.spawnTimer - dt), rng)
    ensures g.spawnTimer - dt <= 0.0 ==>
      Stepped(g, valid, pac, dt, rng, root).0.state == CHASING &&
      Stepped(g, valid, pac, dt, rng, root).0.spawnTimer == g.spawnTimer - dt
  {
  }

  /** Fear wears off when its timer runs out, restoring the base speed; until then the ghost
      stays feared at half speed. */
  lemma FearExpires(g: GhostValue, valid: seq<char>, pac: PacView, dt: real, rng: Rng, root: real -> real)
    requires g.width > 0.0 && g.height > 0.0 && g.state == FEARED
    ensures var r := Stepped(g, valid, pac, dt, rng, root).0;
      r.fearedTimer == g.fearedTimer - dt &&
      (g.fearedTimer - dt <= 0.0 ==> r.state == CHASING && r.speed == g.baseSpeed) &&
      (g.fearedTimer - dt > 0.0 ==> r.state == FEARED && r.speed == g.speed)
  {
  }

  /** A dead ghost that reaches its spawn point chases again at once, at base speed and with no
      direction; it never goes back to WAITING. */
  lemma DeadSnapsToChasing(g: GhostValue, valid: seq<char>, pac: PacView, dt: real, rng: Rng, root: real -> real)
    requires g.width > 0.0 && g.height > 0.0 && g.state == DEAD
    requires SpawnDistance(g, root) < SnapDistance
    ensures var r := Stepped(g, valid, pac, dt, rng, root).0;
      r.state == CHASING && r.speed == g.baseSpeed && r.direction == ' ' &&
      r.x == g.startX && r.y == g.startY
  {
  }

  /** Otherwise the dead ghost moves along the line to its spawn point: its displacement is a
      non-negative multiple of the vector to spawn, the multiple being speed·2.5·dt over the
      distance. */
  lemma DeadMovesTowardSpawn(g: GhostValue, valid: seq<char>, pac: PacView, dt: real, rng: Rng, root: real -> real)
    requires g.width > 0.0 && g.height > 0.0 && g.state == DEAD
    requires g.speed >= 0.0 && dt >= 0.0
    requires SpawnDistance(g, root) >= SnapDistance
    ensures var r := Stepped(g, valid, pac, dt, rng, root).0;
      var k := g.speed * DeadFactor * dt / SpawnDistance(g, root);
      k >= 0.0 && r.x - g.x == k * (g.startX - g.x) && r.y - g.y == k * (g.startY - g.y) &&
      r.state == DEAD && r.direction == g.direction
  {
    var dx := g.startX - g.x;
    var dy := g.startY - g.y;
    var dist := SpawnDistance(g, root);
    var move := g.speed * DeadFactor * dt;
    assert ReturnHome(g, dt, root) == g.(x := g.x + (dx / dist) * move, y := g.y + (dy / dist) * move);
    assert move >= 0.0;
    assert (dx / dist) * move == (move / dist) * dx;
    assert (dy / dist) * move == (move / dist) * dy;
  }

  /** A chasing or feared ghost heads only for legal directions: after a frame its direction is
      the one it had, a member of `valid`, or ' ' when nothing is legal; and it sits on the centre
      line of its starting tile across its direction of travel. */
  lemma MovementStaysOnGrid(g: GhostValue, valid: seq<char>, pac: PacView, dt: real, rng: Rng, root: real -> real)
    requires g.width > 0.0 && g.height > 0.0 && (g.state == CHASING || g.state == FEARED)
    ensures var r := Stepped(g, valid, pac, dt, rng, root).0;
      (r.direction == g.direction || r.direction in valid || (r.direction == ' ' && |valid| == 0)) &&
      (r.direction == 'U' || r.direction == 'D' ==> r.x == GridCenter(g.x, g.width)) &&
      (r.direction == 'L' || r.direction == 'R' ==> r.y == GridCenter(g.y, g.height))
  {
  }

  /** A ghost, updated in place by the world. */
  class Ghost {
    const kind: GhostKind
    var state: GhostState
    var x: real
    var y: real
    var width: real
    var height: real
    var direction: char
    var speed: real
    var baseSpeed: real
    const startX: real
    const startY: real
    var spawnTimer: real
    const originalSpawnTime: real
    var fearedTimer: real

    function Value(): GhostValue
      reads this
    {
      GhostValue(kind, state, x, y, width, height, direction, speed, baseSpeed,
                 startX, startY, spawnTimer, originalSpawnTime, fearedTimer)
    }

    /** The constructors of RedGhost, PinkGhost, BlueGhost and OrangeGhost. */
    constructor (k: GhostKind, x0: real, y0: real, w: real, h: real)
      ensures Value() == NewGhost(k, x0, y0, w, h)
    {
      kind := k;
      state := WAITING;
      x, y, width, height := x0, y0, w, h;
      direction := ' ';
      speed, baseSpeed := DefaultSpeed, DefaultSpeed;
      startX, startY := x0, y0;
      spawnTimer, originalSpawnTime := WaitTime(k), WaitTime(k);
      fearedTimer := 0.0;
    }

    method SetFeared(duration: real)
      modifies this
      ensures Value() == Frightened(old(Value()), duration)
    {
      if state != DEAD && state != WAITING {
        state := FEARED;
        fearedTimer := duration;
        speed := baseSpeed * FearedFactor;
        direction := Opposite(direction);
      }
    }

    method Die()
      modifies this
      ensures Value() == Killed(old(Value()))
    {
      state := DEAD;
      speed := baseSpeed * DeadFactor;
    }

    method Despawn()
      modifies this
      ensures Value() == Hidden(old(Value()))
    {
      state := DESPAWNED;
      direction := ' ';
    }

    method ResetForPacmanDeath()
      modifies this
      ensures Value() == ResetForDeath(old(Value()))
    {
      state := WAITING;
      speed := baseSpeed;
      x, y := startX, startY;
      direction := ' ';
      spawnTimer := originalSpawnTime;
      fearedTimer := 0.0;
    }

    method SetBaseSpeed(s: real)
      modifies this
      ensures Value() == WithBaseSpeed(old(Value()), s)
    {
      baseSpeed := s;
      speed := s;
    }

    /** pickRandomDirection while feared, decideDirection otherwise. */
    method ChooseDirection(valid: seq<char>, pac: PacView, rng: Rng) returns (c: char, rest: Rng)
      ensures c == Choice(Value(), valid, pac, rng).0 && rest == Choice(Value(), valid, pac, rng).1
    {
      if state == FEARED {
        c, rest := PickRandom(valid, rng).0, PickRandom(valid, rng).1;
      } else {
        c, rest := DecideDirection(kind, x, y, direction, pac, valid, rng);
      }
    }

    method Update(valid: seq<char>, pac: PacView, dt: real, rng: Rng, root: real -> real) returns (rest: Rng)
      requires width > 0.0 && height > 0.0
      modifies this
      ensures Value() == Stepped(old(Value()), valid, pac, dt, rng, root).0 && rest == Stepped(old(Value()), valid, pac, dt, rng, root).1
    {
      rest := rng;
      if state == DESPAWNED {
        return;
      }
      if state == DEAD {
        ReturnToSpawn(dt, root);
        return;
      }
      RunTimers(dt);
      if state == WAITING {
        return;
      }
      rest := Move(valid, pac, dt, rest);
    }

    /** The WAITING and FEARED countdowns of Ghost::update. */
    method RunTimers(dt: real)
      modifies this
      ensures Value() == Timed(old(Value()), dt)
    {
      if state == WAITING {
        spawnTimer := spawnTimer - dt;
        if spawnTimer <= 0.0 {
          state := CHASING;
        }
      } else if state == FEARED {
        fearedTimer := fearedTimer - dt;
        if fearedTimer <= 0.0 {
          state := CHASING;
          speed := baseSpeed;
        }
      }
    }

    /** The DEAD branch of Ghost::update. */
    method ReturnToSpawn(dt: real, root: real -> real)
      modifies this
      ensures Value() == ReturnHome(old(Value()), dt, root)
    {
      var dx := startX - x;
      var dy := startY - y;
      var dist := SpawnDistance(Value(), root);
      if dist < SnapDistance {
        state := CHASING;
        speed := baseSpeed;
        x, y := startX, startY;
        direction := ' ';
      } else {
        var move := speed * DeadFactor * dt;
        x, y := x + (dx / dist) * move, y + (dy / dist) * move;
      }
    }

    /** Steps 2 to 4 of Ghost::update: the grid movement of a chasing or feared ghost. */
    method Move(valid: seq<char>, pac: PacView, dt: real, rng: Rng) returns (rest: Rng)
      requires width > 0.0 && height > 0.0
      modifies this
      ensures Value() == Travel(old(Value()), valid, pac, dt, rng).0 && rest == Travel(old(Value()), valid, pac, dt, rng).1
    {
      rest := rng;
      if direction == ' ' {
        direction, rest := ChooseDirection(valid, pac, rest);
      }
      rest := Step(valid, pac, dt, rest);
    }

    method Step(valid: seq<char>, pac: PacView, dt: real, rng: Rng) returns (rest: Rng)
      requires width > 0.0 && height > 0.0
      modifies this
      ensures Value() == Advance(old(Value()), valid, pac, dt, rng).0 && rest == Advance(old(Value()), valid, pac, dt, rng).1
    {
      ghost var g := Value();
      rest := rng;
      var centerX := GridCenter(x, width);
      var centerY := GridCenter(y, height);
      var moveDist := speed * dt;
      var approachingCenter, distRemaining := Approach(direction, x, y, centerX, centerY).0,
                                               Approach(direction, x, y, centerX, centerY).1;
      var isBlocked := direction !in valid;
      assert moveDist == g.speed * dt;
      assert Centre(g).0 == centerX && Centre(g).1 == centerY;
      assert Approaching(g).0 == approachingCenter && Approaching(g).1 == distRemaining;
      assert Blocked(g, valid) == (isBlocked && !approachingCenter);
      assert ReachesCentre(g, dt) == (approachingCenter && moveDist >= distRemaining);
      if isBlocked && !approachingCenter {
        x, y := centerX, centerY;
        assert Value() == g.(x := centerX, y := centerY);
        rest := ChooseAgain(valid, pac, rest);
        AdvanceBlocked(g, valid, pac, dt, rng);
        assert Value() == Advance(g, valid, pac, dt, rng).0;
        return;
      }
      ghost var moved: GhostValue;
      if approachingCenter && moveDist >= distRemaining {
        x, y := centerX, centerY;
        var overshoot := moveDist - distRemaining;
        assert overshoot == g.speed * dt - Approaching(g).1;
        rest := ChooseAgain(valid, pac, rest);
        ghost var turned := Value();
        assert turned == Turned(g.(x := centerX, y := centerY), valid, pac, rng).0;
        MoveBy(overshoot);
        moved := Overshot(turned, overshoot);
        AdvanceTurns(g, valid, pac, dt, rng);
        assert Advance(g, valid, pac, dt, rng).0 == AxisLock(moved, centerX, centerY);
        assert Advance(g, valid, pac, dt, rng).1 == rest;
      } else {
        MoveBy(moveDist);
        moved := Overshot(g, moveDist);
        AdvanceAhead(g, valid, pac, dt, rng);
        assert Advance(g, valid, pac, dt, rng).0 == AxisLock(moved, centerX, centerY);
        assert Advance(g, valid, pac, dt, rng).1 == rest;
      }
      assert Value() == moved;
      LockAxis(centerX, centerY);
      assert Value() == AxisLock(moved, centerX, centerY);
    }

    /** A fresh decision where the ghost stands. */
    method ChooseAgain(valid: seq<char>, pac: PacView, rng: Rng) returns (rest: Rng)
      modifies this
      ensures Value() == Turned(old(Value()), valid, pac, rng).0 && rest == Turned(old(Value()), valid, pac, rng).1
    {
      direction, rest := ChooseDirection(valid, pac, rng);
    }

    /** The position moved `dist` along the direction. */
    method MoveBy(dist: real)
      modifies this
      ensures Value() == Overshot(old(Value()), dist)
    {
      var next := Moved(x, y, direction, dist);
      x, y := next.0, next.1;
    }

    /** Axis locking at the end of Ghost::update. */
    method LockAxis(centerX: real, centerY: real)
      modifies this
      ensures Value() == AxisLock(old(Value()), centerX, centerY)
    {
      if direction == 'U' || direction == 'D' {
        x := centerX;
      } else if direction == 'L' || direction == 'R' {
        y := centerY;
      }
    }

    /** The overridden answers of the query surface: direction, moving flag, state, timer, sprite. */
    function Ask(): (q: Entities.Query)
      reads this
      ensures q.direction == direction && q.moving == (direction != ' ')
      ensures q.stateInt == StateInt(state) && q.stateTimer == fearedTimer && q.spriteId == SpriteId(kind)
      ensures q.dying == Entities.DefaultQuery.dying && q.lives == Entities.DefaultQuery.lives
    {
      Entities.DefaultQuery.(direction := direction, moving := direction != ' ', stateInt := StateInt(state),
                             stateTimer := fearedTimer, spriteId := SpriteId(kind))
    }
  }
}
