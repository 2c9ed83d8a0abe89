/** The player entity: direction, one-slot input buffer, lives and the death animation timer. */
module Player {
  import opened Grid
  import Entities

  const InitialLives: int := 3
  const Speed: real := 0.5
  const DeathAnimationDuration: real := 1.0

  /** All fields of a Pacman, the entity box included. */
  datatype PacmanValue = PacmanValue(
    x: real, y: real, width: real, height: real,
    direction: char, buffer: char, moving: bool,
    lives: int, dying: bool, deathTimer: real,
    spawnX: real, spawnY: real)

  /** The characters each direction slot can ever hold. */
  predicate Legal(p: PacmanValue)
  {
    (p.direction == ' ' || IsDir(p.direction)) && (p.buffer == ' ' || IsDir(p.buffer))
  }

  /** A freshly built Pacman: three lives, alive, still, spawning where it was built. */
  function NewPacman(x: real, y: real, w: real, h: real): (p: PacmanValue)
    ensures Legal(p) && p.lives == InitialLives && !p.dying && !p.moving
    ensures p.spawnX == p.x == x && p.spawnY == p.y == y
    ensures p.direction == ' ' && p.buffer == ' ' && p.deathTimer == 0.0 && p.width == w && p.height == h
  {
    PacmanValue(x, y, w, h, ' ', ' ', false, InitialLives, false, 0.0, x, y)
  }

  /** Pacman::setDirection: ignored while dying; only U, D, L, R and ' ' are accepted. */
  function Directed(p: PacmanValue, dir: char): (r: PacmanValue)
    ensures r == p || (r == p.(direction := dir) && !p.dying && (IsDir(dir) || dir == ' '))
    ensures !p.dying && (IsDir(dir) || dir == ' ') ==> r == p.(direction := dir)
    ensures p.dying || !(IsDir(dir) || dir == ' ') ==> r == p
    ensures Legal(p) ==> Legal(r)
  {
    if p.dying then p
    else if IsDir(dir) || dir == ' ' then p.(direction := dir)
    else p
  }

  /** Pacman::queueDirection: ignored while dying; only U, D, L, R are accepted. */
  function Queued(p: PacmanValue, dir: char): (r: PacmanValue)
    ensures r == p || (r == p.(buffer := dir) && !p.dying && IsDir(dir))
    ensures !p.dying && IsDir(dir) ==> r == p.(buffer := dir)
    ensures p.dying || !IsDir(dir) ==> r == p
    ensures Legal(p) ==> Legal(r)
  {
    if p.dying then p
    else if IsDir(dir) then p.(buffer := dir)
    else p
  }

  /** Pacman::die: starts the death animation and costs exactly one life, once. */
  function Died(p: PacmanValue): (r: PacmanValue)
    ensures p.dying ==> r == p
    ensures !p.dying ==> r.dying && r.lives == p.lives - 1 && r.deathTimer == 0.0
    ensures !p.dying ==> r.direction == ' ' && !r.moving && r.buffer == p.buffer
    ensures r.x == p.x && r.y == p.y && r.spawnX == p.spawnX && r.spawnY == p.spawnY
    ensures r.width == p.width && r.height == p.height
  {
    if p.dying then p
    else p.(dying := true, deathTimer := 0.0, direction := ' ', moving := false, lives := p.lives - 1)
  }

  /** Pacman::updateDeath: the death timer runs only while dying. */
  function DeathAdvanced(p: PacmanValue, dt: real): (r: PacmanValue)
    ensures !p.dying ==> r == p
    ensures p.dying ==> r.deathTimer == p.deathTimer + dt && r.(deathTimer := p.deathTimer) == p
  {
    if !p.dying then p else p.(deathTimer := p.deathTimer + dt)
  }

  /** Pacman::isDeathAnimationComplete. */
  predicate DeathComplete(p: PacmanValue)
  {
    p.deathTimer >= DeathAnimationDuration
  }

  /** Pacman::respawn: alive and still at the spawn point; lives untouched. */
  function Respawned(p: PacmanValue): (r: PacmanValue)
    ensures !r.dying && !r.moving && r.deathTimer == 0.0 && r.direction == ' ' && r.buffer == ' '
    ensures r.x == p.spawnX && r.y == p.spawnY
    ensures r.lives == p.lives && r.spawnX == p.spawnX && r.spawnY == p.spawnY
    ensures r.width == p.width && r.height == p.height
    ensures Legal(r)
  {
    p.(dying := false, deathTimer := 0.0, direction := ' ', buffer := ' ', moving := false,
       x := p.spawnX, y := p.spawnY)
  }

  /** Pacman::setMoving. */
  function WithMoving(p: PacmanValue, m: bool): (r: PacmanValue)
    ensures r.moving == m && r.(moving := p.moving) == p
  {
    p.(moving := m)
  }

  /** Pacman::update: while dying only the death timer runs; without a direction nothing
      happens; otherwise the box moves speed·dt along the direction and is marked moving. */
  function Updated(p: PacmanValue, dt: real): (r: PacmanValue)
    ensures p.dying ==> r == DeathAdvanced(p, dt)
    ensures !p.dying && p.direction == ' ' ==> r == p
    ensures r.lives == p.lives && r.dying == p.dying && r.direction == p.direction && r.buffer == p.buffer
  {
    if p.dying then DeathAdvanced(p, dt)
    else if p.direction == ' ' then p
    else
      var next := Moved(p.x, p.y, p.direction, Speed * dt);
      p.(x := next.0, y := next.1, moving := true)
  }

  /** A live Pacman with a direction moves exactly speed·dt, along one axis only, in the sense
      of its direction. */
  lemma UpdateMovesAlongDirection(p: PacmanValue, dt: real)
    requires !p.dying && IsDir(p.direction) && dt >= 0.0
    ensures Updated(p, dt).moving
    ensures Abs(Updated(p, dt).x - p.x) + Abs(Updated(p, dt).y - p.y) == Speed * dt
    ensures p.direction == 'U' || p.direction == 'D' ==> Updated(p, dt).x == p.x
    ensures p.direction == 'L' || p.direction == 'R' ==> Updated(p, dt).y == p.y
    ensures p.direction == 'R' ==> Updated(p, dt).x >= p.x
    ensures p.direction == 'D' ==> Updated(p, dt).y >= p.y
    ensures p.direction == 'L' ==> Updated(p, dt).x <= p.x
    ensures p.direction == 'U' ==> Updated(p, dt).y <= p.y
  {
  }

  /** Dying freezes input: neither setter changes anything. */
  lemma InputIgnoredWhileDying(p: PacmanValue, c: char)
    requires p.dying
    ensures Directed(p, c) == p && Queued(p, c) == p
  {
  }

  /** Dying twice costs one life. */
  lemma DieTwiceCostsOneLife(p: PacmanValue)
    requires !p.dying
    ensures Died(Died(p)) == Died(p) && Died(Died(p)).lives == p.lives - 1
  {
  }

  /** Runs the death timer over a sequence of frame deltas. */
  function UpdateDeathAll(p: PacmanValue, dts: seq<real>): PacmanValue
    decreases |dts|
  {
    if dts == [] then p else UpdateDeathAll(DeathAdvanced(p, dts[0]), dts[1..])
  }

  function Sum(dts: seq<real>): real
    decreases |dts|
  {
    if dts == [] then 0.0 else dts[0] + Sum(dts[1..])
  }

  /** While dying the timer accumulates every frame delta, so the animation completes as soon as
      the frames since death add up to the duration. */
  lemma {:induction false} DeathTimerAccumulates(p: PacmanValue, dts: seq<real>)
    requires p.dying
    ensures UpdateDeathAll(p, dts).dying
    ensures UpdateDeathAll(p, dts).deathTimer == p.deathTimer + Sum(dts)
    ensures UpdateDeathAll(p, dts).lives == p.lives
    decreases |dts|
  {
    if dts != [] {
      DeathTimerAccumulates(DeathAdvanced(p, dts[0]), dts[1..]);
    }
  }

  lemma DeathCompletesAfterDuration(p: PacmanValue, dts: seq<real>)
    requires !p.dying
    requires Sum(dts) >= DeathAnimationDuration
    ensures DeathComplete(UpdateDeathAll(Died(p), dts))
  {
    DeathTimerAccumulates(Died(p), dts);
  }

  /** The player entity, updated in place. */
  class Pacman {
    var x: real
    var y: real
    var width: real
    var height: real
    var direction: char
    var directionBuffer: char
    var moving: bool
    var lives: int
    var dying: bool
    var deathTimer: real
    const spawnX: real
    const spawnY: real

    function Value(): PacmanValue
      reads this
    {
      PacmanValue(x, y, width, height, direction, directionBuffer, moving, lives, dying, deathTimer, spawnX, spawnY)
    }

    constructor (x0: real, y0: real, w: real, h: real)
      ensures Value() == NewPacman(x0, y0, w, h)
    {
      x, y, width, height := x0, y0, w, h;
      direction, directionBuffer, moving := ' ', ' ', false;
      lives, dying, deathTimer := InitialLives, false, 0.0;
      spawnX, spawnY := x0, y0;
    }

    method SetDirection(dir: char)
      modifies this
      ensures Value() == Directed(old(Value()), dir)
    {
      if dying {
        return;
      }
      if dir == 'U' || dir == 'D' || dir == 'L' || dir == 'R' || dir == ' ' {
        direction := dir;
      }
    }

    method QueueDirection(dir: char)
      modifies this
      ensures Value() == Queued(old(Value()), dir)
    {
      if dying {
        return;
      }
      if dir == 'U' || dir == 'D' || dir == 'L' || dir == 'R' {
        directionBuffer := dir;
      }
    }

    method Die()
      modifies this
      ensures Value() == Died(old(Value()))
    {
      if dying {
        return;
      }
      dying := true;
      deathTimer := 0.0;
      direction := ' ';
      moving := false;
      lives := lives - 1;
    }

    method UpdateDeath(dt: real)
      modifies this
      ensures Value() == DeathAdvanced(old(Value()), dt)
    {
      if !dying {
        return;
      }
      deathTimer := deathTimer + dt;
    }

    predicate IsDeathAnimationComplete()
      reads this
    {
      deathTimer >= DeathAnimationDuration
    }

    method Respawn()
      modifies this
      ensures Value() == Respawned(old(Value()))
    {
      dying := false;
      deathTimer := 0.0;
      direction := ' ';
      directionBuffer := ' ';
      moving := false;
      SetPosition(spawnX, spawnY);
    }

    method SetPosition(newX: real, newY: real)
      modifies this
      ensures Value() == old(Value()).(x := newX, y := newY)
    {
      x, y := newX, newY;
    }

    method SetMoving(m: bool)
      modifies this
      ensures Value() == WithMoving(old(Value()), m)
    {
      moving := m;
    }

    method Update(dt: real)
      modifies this
      ensures Value() == Updated(old(Value()), dt)
    {
      if dying {
        UpdateDeath(dt);
        return;
      }
      if direction == ' ' {
        return;
      }
      var distance := Speed * dt;
      var nextX, nextY := x, y;
      match direction {
        case 'U' => nextY := nextY - distance;
        case 'D' => nextY := nextY + distance;
        case 'L' => nextX := nextX - distance;
        case 'R' => nextX := nextX + distance;
        case _ =>
      }
      SetPosition(nextX, nextY);
      moving := true;
    }

    /** The overridden answers of the query surface: direction, moving flag, dying flag, lives. */
    function Ask(): (q: Entities.Query)
      reads this
      ensures q.direction == direction && q.moving == moving && q.dying == dying && q.lives == lives
      ensures q.stateInt == Entities.DefaultQuery.stateInt && q.spriteId == Entities.DefaultQuery.spriteId
      ensures q.stateTimer == Entities.DefaultQuery.stateTimer
    {
      Entities.DefaultQuery.(direction := direction, moving := moving, dying := dying, lives := lives)
    }
  }
}
