/** The four ghost personalities: how each one picks a direction from the legal set, and the
    Manhattan-distance helper three of them share. */
module GhostAI {
  import opened Grid
  import opened Randomness

  datatype GhostKind = Red | Pink | Blue | Orange

  /** Seconds a ghost of this kind waits before it starts chasing. */
  function WaitTime(k: GhostKind): (t: real)
    ensures t >= 0.0
    ensures t == 0.0 <==> k == Red || k == Pink
    ensures k == Blue ==> t == 5.0
    ensures k == Orange ==> t == 10.0
  {
    match k
    case Red => 0.0
    case Pink => 0.0
    case Blue => 5.0
    case Orange => 10.0
  }

  /** The sprite id the views use: 0 red, 1 pink, 2 blue, 3 orange. */
  function SpriteId(k: GhostKind): (id: int)
    ensures 0 <= id <= 3
    ensures k == Red ==> id == 0
    ensures k == Pink ==> id == 1
    ensures k == Blue ==> id == 2
    ensures k == Orange ==> id == 3
  {
    match k
    case Red => 0
    case Pink => 1
    case Blue => 2
    case Orange => 3
  }

  lemma SpriteIdsDistinct(a: GhostKind, b: GhostKind)
    ensures SpriteId(a) == SpriteId(b) <==> a == b
  {
  }

  /** What a ghost knows of the player when it decides. */
  datatype PacView = PacView(x: real, y: real, dir: char)

  /** A uniformly drawn member of a non-empty legal set. */
  function PickIndex(valid: seq<char>, rng: Rng): (r: (char, Rng))
    requires |valid| > 0
    ensures r.0 in valid && Consumed(rng, r.1)
  {
    var (i, rest) := NextInt(rng, |valid|);
    (valid[i], rest)
  }

  /** Ghost::pickRandomDirection: a member of `valid`, or ' ' when there is none. */
  function PickRandom(valid: seq<char>, rng: Rng): (r: (char, Rng))
    ensures |valid| == 0 ==> r == (' ', rng)
    ensures |valid| > 0 ==> r.0 in valid
    ensures Consumed(rng, r.1)
  {
    if |valid| == 0 then (' ', rng) else PickIndex(valid, rng)
  }

  // ---------------------------------------------------------------------------------------------
  // Manhattan helper (getBestManhattanDirection)

  /** Two distances closer than this are a tie. */
  const Tolerance: real := 0.001

  /** Manhattan distance to the target after a step of 1.0 world units in direction `m`. */
  function StepDistance(sx: real, sy: real, tx: real, ty: real, m: char): (d: real)
    ensures d >= 0.0
  {
    var p := Moved(sx, sy, m, 1.0);
    Abs(p.0 - tx) + Abs(p.1 - ty)
  }

  /** The simulated step is 1.0 world units long in every direction: half the width of the
      [-1, 1] world, not one tile. A non-direction does not move. */
  lemma StepIsOneWorldUnit(sx: real, sy: real, m: char)
    ensures IsDir(m) ==> StepDistance(sx, sy, sx, sy, m) == 1.0
    ensures !IsDir(m) ==> StepDistance(sx, sy, sx, sy, m) == 0.0
  {
  }

  /** The scan state: whether a distance was seen, the recorded minimum, the tie set. */
  datatype Tally = Tally(started: bool, min: real, best: seq<char>)

  /** One iteration of the scan: a clearly smaller distance restarts the tie set, a distance
      within the tolerance of the recorded minimum joins it, anything else is ignored. The first
      move always restarts it (the source starts from the largest float). */
  function Consider(t: Tally, m: char, d: real): Tally
  {
    if !t.started || d < t.min - Tolerance then Tally(true, d, [m])
    else if Abs(d - t.min) < Tolerance then t.(best := t.best + [m])
    else t
  }

  /** The scan over `moves`, in order. */
  function Scan(sx: real, sy: real, tx: real, ty: real, moves: seq<char>): (t: Tally)
    ensures t.started <==> moves != []
    ensures moves != [] ==> |t.best| > 0
    ensures forall j :: 0 <= j < |t.best| ==> t.best[j] in moves
  {
    if moves == [] then Tally(false, 0.0, [])
    else
      var init := moves[..|moves| - 1];
      var m := moves[|moves| - 1];
      var t := Scan(sx, sy, tx, ty, init);
      assert forall j :: 0 <= j < |t.best| ==> t.best[j] in moves by {
        forall j | 0 <= j < |t.best| ensures t.best[j] in moves {
          assert t.best[j] in init;
        }
      }
      Consider(t, m, StepDistance(sx, sy, tx, ty, m))
  }

  /** After the scan no move is more than the tolerance below the recorded minimum, and every
      move of the tie set is within the tolerance of it. */
  lemma {:induction false} ScanBounds(sx: real, sy: real, tx: real, ty: real, moves: seq<char>)
    requires moves != []
    ensures forall i :: 0 <= i < |moves| ==>
      StepDistance(sx, sy, tx, ty, moves[i]) >= Scan(sx, sy, tx, ty, moves).min - Tolerance
    ensures forall j :: 0 <= j < |Scan(sx, sy, tx, ty, moves).best| ==>
      Abs(StepDistance(sx, sy, tx, ty, Scan(sx, sy, tx, ty, moves).best[j]) - Scan(sx, sy, tx, ty, moves).min) < Tolerance
  {
    var init := moves[..|moves| - 1];
    var m := moves[|moves| - 1];
    var t := Scan(sx, sy, tx, ty, init);
    var d := StepDistance(sx, sy, tx, ty, m);
    var t' := Scan(sx, sy, tx, ty, moves);
    assert t' == Consider(t, m, d);
    if init != [] {
      ScanBounds(sx, sy, tx, ty, init);
      assert t.started;
    }
    forall i | 0 <= i < |moves|
      ensures StepDistance(sx, sy, tx, ty, moves[i]) >= t'.min - Tolerance
    {
      if i < |moves| - 1 {
        assert moves[i] == init[i];
      }
    }
  }

  /** getBestManhattanDirection: a random member of the tie set of the scan. */
  function ManhattanChoice(sx: real, sy: real, tx: real, ty: real, valid: seq<char>, rng: Rng): (r: (char, Rng))
    requires |valid| > 0
    ensures r.0 in valid && Consumed(rng, r.1)
    ensures r.0 in Scan(sx, sy, tx, ty, valid).best
  {
    var best := Scan(sx, sy, tx, ty, valid).best;
    var (i, rest) := NextInt(rng, |best|);
    (best[i], rest)
  }

  /** The chosen move is never more than twice the tolerance worse than the best legal move:
      the recorded minimum is at most one tolerance above the true minimum, and the tie set
      reaches at most one tolerance above the recorded minimum. */
  lemma ManhattanNearlyOptimal(sx: real, sy: real, tx: real, ty: real, valid: seq<char>, rng: Rng)
    requires |valid| > 0
    ensures forall i :: 0 <= i < |valid| ==>
      StepDistance(sx, sy, tx, ty, ManhattanChoice(sx, sy, tx, ty, valid, rng).0)
        < StepDistance(sx, sy, tx, ty, valid[i]) + 2.0 * Tolerance
  {
    ScanBounds(sx, sy, tx, ty, valid);
    var t := Scan(sx, sy, tx, ty, valid);
    var c := ManhattanChoice(sx, sy, tx, ty, valid, rng).0;
    var j :| 0 <= j < |t.best| && t.best[j] == c;
    assert Abs(StepDistance(sx, sy, tx, ty, c) - t.min) < Tolerance;
  }

  /** The bound above cannot be narrowed to one tolerance: from (0, 0) towards (-0.0004, 0.0006)
      the moves L, D, R step to distances 1.0002, 0.9998 and 1.0010; all three tie with the first,
      so R, 0.0012 worse than D, can be chosen. */
  lemma TieSetCanExceedOneTolerance()
    ensures var t := Scan(0.0, 0.0, -0.0004, 0.0006, ['L', 'D', 'R']);
      t.best == ['L', 'D', 'R'] &&
      StepDistance(0.0, 0.0, -0.0004, 0.0006, 'R') - StepDistance(0.0, 0.0, -0.0004, 0.0006, 'D') > Tolerance
  {
    var s := ['L', 'D', 'R'];
    assert s[..2] == ['L', 'D'] && ['L', 'D'][..1] == ['L'] && ['L'][..0] == [];
    assert StepDistance(0.0, 0.0, -0.0004, 0.0006, 'L') == 1.0002;
    assert StepDistance(0.0, 0.0, -0.0004, 0.0006, 'D') == 0.9998;
    assert StepDistance(0.0, 0.0, -0.0004, 0.0006, 'R') == 1.0010;
  }

  /** Nor is the tie set every move near the final minimum: from (0, 0) towards (0.0006, 0.0004)
      the moves U, D, R step to 1.0010, 1.0002 and 0.9998; R restarts the set, dropping D, which
      is only 0.0004 worse. */
  lemma NearTieCanBeDropped()
    ensures var t := Scan(0.0, 0.0, 0.0006, 0.0004, ['U', 'D', 'R']);
      t.best == ['R'] &&
      Abs(StepDistance(0.0, 0.0, 0.0006, 0.0004, 'D') - t.min) < Tolerance
  {
    var s := ['U', 'D', 'R'];
    assert s[..2] == ['U', 'D'] && ['U', 'D'][..1] == ['U'] && ['U'][..0] == [];
    assert StepDistance(0.0, 0.0, 0.0006, 0.0004, 'U') == 1.0010;
    assert StepDistance(0.0, 0.0, 0.0006, 0.0004, 'D') == 1.0002;
    assert StepDistance(0.0, 0.0, 0.0006, 0.0004, 'R') == 0.9998;
  }

  /** getBestManhattanDirection, loop for loop. The source's fallback to `valid[0]` for an empty
      tie set is left out: the first move always enters the set. */
  method GetBestManhattanDirection(sx: real, sy: real, tx: real, ty: real, valid: seq<char>, rng: Rng)
    returns (c: char, rest: Rng)
    requires |valid| > 0
    ensures (c, rest) == ManhattanChoice(sx, sy, tx, ty, valid, rng)
  {
    var started := false;
    var minDistance := 0.0;
    var bestMoves: seq<char> := [];
    for i := 0 to |valid|
      invariant Tally(started, minDistance, bestMoves) == Scan(sx, sy, tx, ty, valid[..i])
    {
      var move := valid[i];
      var nextX, nextY := sx, sy;
      match move {
        case 'U' => nextY := nextY - 1.0;
        case 'D' => nextY := nextY + 1.0;
        case 'L' => nextX := nextX - 1.0;
        case 'R' => nextX := nextX + 1.0;
        case _ =>
      }
      var dist := Abs(nextX - tx) + Abs(nextY - ty);
      assert valid[..i + 1][..i] == valid[..i];
      if !started || dist < minDistance - Tolerance {
        started := true;
        minDistance := dist;
        bestMoves := [move];
      } else if Abs(dist - minDistance) < Tolerance {
        bestMoves := bestMoves + [move];
      }
    }
    assert valid[..|valid|] == valid;
    var draw := NextInt(rng, |bestMoves|);
    c, rest := bestMoves[draw.0], draw.1;
  }

  // ---------------------------------------------------------------------------------------------
  // The four decideDirection overrides

  /** RedGhost::decideDirection. At an intersection (two or more options, or the way ahead shut)
      a coin flip picks either a random option or, when possible, straight on; otherwise it keeps
      going straight. */
  function RedDecide(dir: char, valid: seq<char>, rng: Rng): (r: (char, Rng))
    ensures |valid| == 0 ==> r == (' ', rng)
    ensures |valid| > 0 ==> r.0 in valid
    ensures valid == [dir] ==> r == (dir, rng)
    ensures Consumed(rng, r.1)
  {
    if |valid| == 0 then (' ', rng)
    else
      var canGoStraight := dir in valid;
      var isIntersection := |valid| >= 2 || !canGoStraight;
      if isIntersection then
        var (coin, rest) := NextBool(rng);
        if coin then PickIndex(valid, rest)
        else if canGoStraight then (dir, rest)
        else PickIndex(valid, rest)
      else (dir, rng)
  }

  /** With the way ahead shut, Red always takes another direction. */
  lemma RedBlockedTurns(dir: char, valid: seq<char>, rng: Rng)
    requires |valid| > 0 && dir !in valid
    ensures RedDecide(dir, valid, rng).0 != dir
  {
  }

  /** The point one unit ahead of the player in its facing direction, or the player itself when
      it stands still (PinkGhost and BlueGhost). */
  function AheadTarget(pac: PacView): (t: (real, real))
    ensures !IsDir(pac.dir) ==> t == (pac.x, pac.y)
    ensures IsDir(pac.dir) ==> Abs(t.0 - pac.x) + Abs(t.1 - pac.y) == 1.0
    ensures pac.dir == 'U' ==> t == (pac.x, pac.y - 1.0)
    ensures pac.dir == 'D' ==> t == (pac.x, pac.y + 1.0)
    ensures pac.dir == 'L' ==> t == (pac.x - 1.0, pac.y)
    ensures pac.dir == 'R' ==> t == (pac.x + 1.0, pac.y)
  {
    Moved(pac.x, pac.y, pac.dir, 1.0)
  }

  /** PinkGhost::decideDirection, which BlueGhost::decideDirection repeats line for line. */
  function AheadDecide(x: real, y: real, pac: PacView, valid: seq<char>, rng: Rng): (r: (char, Rng))
    ensures |valid| == 0 ==> r == (' ', rng)
    ensures |valid| > 0 ==> r == ManhattanChoice(x, y, AheadTarget(pac).0, AheadTarget(pac).1, valid, rng)
  {
    if |valid| == 0 then (' ', rng)
    else
      var target := AheadTarget(pac);
      ManhattanChoice(x, y, target.0, target.1, valid, rng)
  }

  /** OrangeGhost::decideDirection: straight for the player's position. */
  function OrangeDecide(x: real, y: real, pac: PacView, valid: seq<char>, rng: Rng): (r: (char, Rng))
    ensures |valid| == 0 ==> r == (' ', rng)
    ensures |valid| > 0 ==> r == ManhattanChoice(x, y, pac.x, pac.y, valid, rng)
  {
    if |valid| == 0 then (' ', rng)
    else ManhattanChoice(x, y, pac.x, pac.y, valid, rng)
  }

  /** The virtual decideDirection dispatched on the kind. Every variant answers ' ' for an empty
      legal set and a member of it otherwise. */
  function Decide(kind: GhostKind, x: real, y: real, dir: char, pac: PacView, valid: seq<char>, rng: Rng): (r: (char, Rng))
    ensures |valid| == 0 ==> r == (' ', rng)
    ensures |valid| > 0 ==> r.0 in valid
    ensures Consumed(rng, r.1)
  {
    match kind
    case Red => RedDecide(dir, valid, rng)
    case Pink => AheadDecide(x, y, pac, valid, rng)
    case Blue => AheadDecide(x, y, pac, valid, rng)
    case Orange => OrangeDecide(x, y, pac, valid, rng)
  }

  /** The decision step as the ghost runs it, calling the Manhattan loop for the chasers. */
  method DecideDirection(kind: GhostKind, x: real, y: real, dir: char, pac: PacView, valid: seq<char>, rng: Rng)
    returns (c: char, rest: Rng)
    ensures (c, rest) == Decide(kind, x, y, dir, pac, valid, rng)
  {
    if |valid| == 0 {
      return ' ', rng;
    }
    match kind {
      case Red =>
        var r := RedDecide(dir, valid, rng);
        c, rest := r.0, r.1;
      case Pink =>
        var target := AheadTarget(pac);
        c, rest := GetBestManhattanDirection(x, y, target.0, target.1, valid, rng);
      case Blue =>
        var target := AheadTarget(pac);
        c, rest := GetBestManhattanDirection(x, y, target.0, target.1, valid, rng);
      case Orange =>
        c, rest := GetBestManhattanDirection(x, y, pac.x, pac.y, valid, rng);
    }
  }
}
