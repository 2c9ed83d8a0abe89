/** The reading of a map file by the level loader (World::initializeLevel): the character in
    column c of line r places its item on tile (c, r); walls, coins, fruits and ghost spawns
    accumulate in reading order, and the last 'P' decides where the player starts. */
module LevelMap {
  import opened Grid
  import opened GhostAI

  datatype Option<T> = None | Some(value: T)

  /** What one character of the map places on its tile. */
  datatype Item = Wall | Coin | Fruit | Player | Spawn(kind: GhostKind) | Nothing

  /** The loader's switch: '#' wall, '0' coin, 'f' fruit, 'P' player, 'R' 'I' 'B' 'O' the red,
      pink, blue and orange ghosts; a blank, a carriage return or any other character places
      nothing. */
  function ItemOf(ch: char): (it: Item)
    ensures it == Nothing <==> ch !in "#0fPRIBO"
    ensures it.Spawn? <==> ch in "RIBO"
  {
    match ch
    case '#' => Wall
    case '0' => Coin
    case 'f' => Fruit
    case 'P' => Player
    case 'R' => Spawn(Red)
    case 'I' => Spawn(Pink)
    case 'B' => Spawn(Blue)
    case 'O' => Spawn(Orange)
    case _ => Nothing
  }

  /** The map character that spawns a ghost of kind `k`. */
  function KindChar(k: GhostKind): char
  {
    match k
    case Red => 'R'
    case Pink => 'I'
    case Blue => 'B'
    case Orange => 'O'
  }

  /** Each ghost kind has exactly one map character. */
  lemma KindCharRoundTrip(k: GhostKind, ch: char)
    ensures ItemOf(KindChar(k)) == Spawn(k)
    ensures ItemOf(ch) == Spawn(k) ==> ch == KindChar(k)
  {
  }

  datatype GhostSpawn = GhostSpawn(kind: GhostKind, tile: Tile)

  /** What a map holds, by category, each category in reading order. */
  datatype Layout = Layout(walls: seq<Tile>, coins: seq<Tile>, fruits: seq<Tile>,
                           spawns: seq<GhostSpawn>, player: Option<Tile>)

  const Empty: Layout := Layout([], [], [], [], None)

  /** One character read at tile `t`. */
  function Place(l: Layout, ch: char, t: Tile): Layout
  {
    match ItemOf(ch)
    case Wall => l.(walls := l.walls + [t])
    case Coin => l.(coins := l.coins + [t])
    case Fruit => l.(fruits := l.fruits + [t])
    case Player => l.(player := Some(t))
    case Spawn(k) => l.(spawns := l.spawns + [GhostSpawn(k, t)])
    case Nothing => l
  }

  /** The characters of one line, read left to right on row `y`. */
  function Row(l: Layout, line: string, y: int): Layout
    decreases |line|
  {
    if line == [] then l
    else Place(Row(l, line[..|line| - 1], y), line[|line| - 1], Tile(|line| - 1, y))
  }

  /** The lines of a map, read top to bottom. */
  function Rows(l: Layout, lines: seq<string>): Layout
    decreases |lines|
  {
    if lines == [] then l
    else Row(Rows(l, lines[..|lines| - 1]), lines[|lines| - 1], |lines| - 1)
  }

  /** Reading a line one more character along. */
  lemma RowStep(l: Layout, line: string, c: nat, y: int)
    requires c < |line|
    ensures Row(l, line[..c + 1], y) == Place(Row(l, line[..c], y), line[c], Tile(c, y))
  {
    assert line[..c + 1][..c] == line[..c];
  }

  /** Reading a map one more line down. */
  lemma RowsStep(l: Layout, lines: seq<string>, r: nat)
    requires r < |lines|
    ensures Rows(l, lines[..r + 1]) == Row(Rows(l, lines[..r]), lines[r], r)
  {
    assert lines[..r + 1][..r] == lines[..r];
  }

  /** Whether the map has character `ch` at tile `t`. */
  predicate Holds(lines: seq<string>, t: Tile, ch: char)
  {
    0 <= t.y < |lines| && 0 <= t.x < |lines[t.y]| && lines[t.y][t.x] == ch
  }

  /** Whether the layout places item `it` on tile `t`. */
  predicate Has(l: Layout, it: Item, t: Tile)
  {
    match it
    case Wall => t in l.walls
    case Coin => t in l.coins
    case Fruit => t in l.fruits
    case Spawn(k) => GhostSpawn(k, t) in l.spawns
    case Player => l.player == Some(t)
    case Nothing => false
  }

  /** The items every occurrence of which is kept (all but the player, of whom the last wins). */
  predicate Stacked(it: Item)
  {
    !it.Player? && !it.Nothing?
  }

  lemma PlaceHas(l: Layout, ch: char, u: Tile, it: Item, t: Tile)
    requires Stacked(it)
    ensures Has(Place(l, ch, u), it, t) <==> Has(l, it, t) || (t == u && ItemOf(ch) == it)
  {
  }

  lemma {:induction false} RowHas(l: Layout, line: string, y: int, it: Item, t: Tile)
    requires Stacked(it)
    ensures Has(Row(l, line, y), it, t) <==>
      Has(l, it, t) || (t.y == y && 0 <= t.x < |line| && ItemOf(line[t.x]) == it)
    decreases |line|
  {
    if line != [] {
      var n := |line| - 1;
      RowHas(l, line[..n], y, it, t);
      PlaceHas(Row(l, line[..n], y), line[n], Tile(n, y), it, t);
    }
  }

  /** Reading a map adds an item on exactly the tiles whose character places it. */
  lemma {:induction false} RowsHas(l: Layout, lines: seq<string>, it: Item, t: Tile)
    requires Stacked(it)
    ensures Has(Rows(l, lines), it, t) <==>
      Has(l, it, t) || (0 <= t.y < |lines| && 0 <= t.x < |lines[t.y]| && ItemOf(lines[t.y][t.x]) == it)
    decreases |lines|
  {
    if lines != [] {
      var n := |lines| - 1;
      RowsHas(l, lines[..n], it, t);
      RowHas(Rows(l, lines[..n]), lines[n], n, it, t);
    }
  }

  /** A map read from scratch has a wall, coin, fruit or ghost of kind `k` on a tile exactly
      when the map's character there is '#', '0', 'f' or the kind's own letter. */
  lemma LoadedExactly(lines: seq<string>, t: Tile, k: GhostKind)
    ensures t in Rows(Empty, lines).walls <==> Holds(lines, t, '#')
    ensures t in Rows(Empty, lines).coins <==> Holds(lines, t, '0')
    ensures t in Rows(Empty, lines).fruits <==> Holds(lines, t, 'f')
    ensures GhostSpawn(k, t) in Rows(Empty, lines).spawns <==> Holds(lines, t, KindChar(k))
  {
    RowsHas(Empty, lines, Wall, t);
    RowsHas(Empty, lines, Coin, t);
    RowsHas(Empty, lines, Fruit, t);
    RowsHas(Empty, lines, Spawn(k), t);
    if 0 <= t.y < |lines| && 0 <= t.x < |lines[t.y]| {
      KindCharRoundTrip(k, lines[t.y][t.x]);
    }
  }

  /** Tile `a` comes no later than tile `b` in reading order. */
  predicate ReadingBefore(a: Tile, b: Tile)
  {
    a.y < b.y || (a.y == b.y && a.x <= b.x)
  }

  /** The column of the last 'P' in a line, or -1 for a line without one. */
  function LastPlayer(line: string): (i: int)
    ensures -1 <= i < |line|
    ensures i >= 0 ==> line[i] == 'P'
    ensures forall j :: i < j < |line| ==> line[j] != 'P'
    decreases |line|
  {
    if line == [] then -1
    else if line[|line| - 1] == 'P' then |line| - 1
    else LastPlayer(line[..|line| - 1])
  }

  /** Within a line the last 'P' wins; a line without one leaves the player where it was. */
  lemma {:induction false} RowPlayer(l: Layout, line: string, y: int)
    ensures Row(l, line, y).player ==
      if LastPlayer(line) >= 0 then Some(Tile(LastPlayer(line), y)) else l.player
    decreases |line|
  {
    if line != [] {
      var n := |line| - 1;
      RowPlayer(l, line[..n], y);
      PlacePlayer(Row(l, line[..n], y), line[n], Tile(n, y));
    }
  }

  /** Only a 'P' moves the player. */
  lemma PlacePlayer(l: Layout, ch: char, t: Tile)
    ensures Place(l, ch, t).player == if ch == 'P' then Some(t) else l.player
  {
  }

  /** Across a whole map the player ends on the last 'P' in reading order; a map without one
      leaves the player as it was. */
  lemma {:induction false} RowsPlayer(l: Layout, lines: seq<string>)
    ensures (forall t :: !Holds(lines, t, 'P')) ==> Rows(l, lines).player == l.player
    ensures (exists t :: Holds(lines, t, 'P')) ==>
      Rows(l, lines).player.Some? && Holds(lines, Rows(l, lines).player.value, 'P') &&
      forall t :: Holds(lines, t, 'P') ==> ReadingBefore(t, Rows(l, lines).player.value)
    decreases |lines|
  {
    if lines != [] {
      var n := |lines| - 1;
      var prefix := lines[..n];
      RowsPlayer(l, prefix);
      RowPlayer(Rows(l, prefix), lines[n], n);
      HoldsLast(lines, 'P');
      var k := LastPlayer(lines[n]);
      if k >= 0 {
        assert Holds(lines, Tile(k, n), 'P');
      } else {
        assert forall t :: Holds(lines, t, 'P') ==> Holds(prefix, t, 'P');
      }
    }
  }

  /** A map's characters are those of all its lines but the last, and those of the last line. */
  lemma HoldsLast(lines: seq<string>, ch: char)
    requires lines != []
    ensures forall t :: Holds(lines, t, ch) <==>
      Holds(lines[..|lines| - 1], t, ch) ||
      (t.y == |lines| - 1 && 0 <= t.x < |lines[t.y]| && lines[t.y][t.x] == ch)
  {
  }

}
