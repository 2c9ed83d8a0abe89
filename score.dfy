/** The score engine (running total, coin timer, ghost combo) and the top-5 high-score table. */
module Scoring {

  const BaseCoinScore: int := 10
  const FruitScore: int := 50
  const BaseGhostScore: int := 200
  const LevelClearBonus: int := 500
  const FastCollectTime: real := 1.0
  const MediumCollectTime: real := 3.0

  /** The three fields of a Score: total points, seconds since the last coin, ghosts eaten in a row. */
  datatype ScoreValue = ScoreValue(total: int, sinceCoin: real, combo: int)

  const Initial: ScoreValue := ScoreValue(0, 0.0, 0)

  /** Points for a coin collected `elapsed` seconds after the previous one: three times the base
      under one second, twice under three seconds, the base otherwise. */
  function CoinPoints(elapsed: real): (p: int)
    ensures p == 3 * BaseCoinScore <==> elapsed < FastCollectTime
    ensures p == 2 * BaseCoinScore <==> FastCollectTime <= elapsed < MediumCollectTime
    ensures p == BaseCoinScore <==> elapsed >= MediumCollectTime
  {
    var multiplier := if elapsed < FastCollectTime then 3 else if elapsed < MediumCollectTime then 2 else 1;
    BaseCoinScore * multiplier
  }

  /** A quicker coin never earns fewer points. */
  lemma CoinPointsMonotone(e1: real, e2: real)
    requires e1 <= e2
    ensures CoinPoints(e1) >= CoinPoints(e2)
  {
  }

  /** The calls the world makes on the score engine. `CoinCollected` carries the frame delta
      that onCoinCollected reads from the stopwatch. */
  datatype Event =
    | Tick(dt: real)
    | CoinCollected(dt: real)
    | FruitCollected
    | GhostEaten
    | PacmanDied
    | LevelCleared
    | Reset

  /** The effect of one call on the score fields (Score::update, on*Collected, onGhostEaten,
      onPacmanDied, onLevelCleared, reset). */
  function Apply(s: ScoreValue, e: Event): (r: ScoreValue)
    ensures e.Reset? ==> r == Initial
    ensures !e.Reset? && s.combo >= 0 ==> r.total >= s.total && r.combo >= 0
    ensures e.Tick? || e.GhostEaten? ==> r.combo >= s.combo
    ensures e.Tick? ==> r.total == s.total && r.combo == s.combo && r.sinceCoin == s.sinceCoin + e.dt
    ensures e.CoinCollected? ==>
      r.total == s.total + CoinPoints(s.sinceCoin + e.dt) && r.sinceCoin == 0.0 && r.combo == s.combo
    ensures e.FruitCollected? ==> r.total == s.total + 50 && r.combo == 0 && r.sinceCoin == s.sinceCoin
    ensures e.GhostEaten? ==>
      r.combo == s.combo + 1 && r.total == s.total + 200 * r.combo && r.sinceCoin == s.sinceCoin
    ensures e.PacmanDied? ==> r.total == s.total && r.combo == 0 && r.sinceCoin == 0.0
    ensures e.LevelCleared? ==> r.total == s.total + 500 && r.combo == 0 && r.sinceCoin == 0.0
  {
    match e
    case Tick(dt) => s.(sinceCoin := s.sinceCoin + dt)
    case CoinCollected(dt) =>
      s.(total := s.total + CoinPoints(s.sinceCoin + dt), sinceCoin := 0.0)
    case FruitCollected => s.(total := s.total + FruitScore, combo := 0)
    case GhostEaten => s.(total := s.total + BaseGhostScore * (s.combo + 1), combo := s.combo + 1)
    case PacmanDied => s.(sinceCoin := 0.0, combo := 0)
    case LevelCleared => s.(total := s.total + LevelClearBonus, sinceCoin := 0.0, combo := 0)
    case Reset => Initial
  }

  /** Only fruit, death, level clear and reset lower the combo; coins leave it alone. */
  lemma ComboResetOnlyByFruitDeathClearOrReset(s: ScoreValue, e: Event)
    requires !(e.FruitCollected? || e.PacmanDied? || e.LevelCleared? || e.Reset?)
    ensures Apply(s, e).combo >= s.combo
  {
  }

  /** Fruit, death, level clear and reset do set the combo back to zero. */
  lemma ComboZeroedByFruitDeathClearOrReset(s: ScoreValue, e: Event)
    requires e.FruitCollected? || e.PacmanDied? || e.LevelCleared? || e.Reset?
    ensures Apply(s, e).combo == 0
  {
  }

  function ApplyAll(s: ScoreValue, es: seq<Event>): ScoreValue
    decreases |es|
  {
    if es == [] then s else ApplyAll(Apply(s, es[0]), es[1..])
  }

  /** Without a reset the total never goes down, whatever else happens. */
  lemma {:induction false} ScoreNeverDecreases(s: ScoreValue, es: seq<Event>)
    requires s.combo >= 0
    requires forall i :: 0 <= i < |es| ==> !es[i].Reset?
    ensures ApplyAll(s, es).total >= s.total && ApplyAll(s, es).combo >= 0
    decreases |es|
  {
    if es != [] {
      ScoreNeverDecreases(Apply(s, es[0]), es[1..]);
    }
  }

  function Repeat(e: Event, k: nat): (r: seq<Event>)
    ensures |r| == k && forall i :: 0 <= i < k ==> r[i] == e
  {
    if k == 0 then [] else [e] + Repeat(e, k - 1)
  }

  /** `k` ghosts eaten in a row, starting from combo `c`, earn 200·(c+1) + … + 200·(c+k), that is
      100·k·(2c + k + 1): 200, 400, 600, 800 from a zero combo (arithmetic, not doubling). */
  lemma {:induction false} GhostRun(s: ScoreValue, k: nat)
    ensures ApplyAll(s, Repeat(GhostEaten, k)).combo == s.combo + k
    ensures ApplyAll(s, Repeat(GhostEaten, k)).total == s.total + 100 * k * (2 * s.combo + k + 1)
    ensures ApplyAll(s, Repeat(GhostEaten, k)).sinceCoin == s.sinceCoin
    decreases k
  {
    if k > 0 {
      var s' := Apply(s, GhostEaten);
      assert Repeat(GhostEaten, k)[1..] == Repeat(GhostEaten, k - 1);
      GhostRun(s', k - 1);
    }
  }

  /** The four ghosts of one fear window, from a fresh combo, earn 2000 points in total. */
  lemma FourGhostsEarn2000(s: ScoreValue)
    requires s.combo == 0
    ensures ApplyAll(s, Repeat(GhostEaten, 4)).total == s.total + 2000
  {
    GhostRun(s, 4);
  }

  /** The frame delta reaches the coin timer twice in a frame that collects a coin: once through
      Score::update and once more inside onCoinCollected. A coin is therefore rated on the timer
      plus 2·dt, so two coins in consecutive frames of length `dt` are rated on 2·dt. */
  lemma CoinRatedOnTwiceTheFrame(s: ScoreValue, dt: real)
    ensures ApplyAll(s, [Tick(dt), CoinCollected(dt)]).total == s.total + CoinPoints(s.sinceCoin + 2.0 * dt)
    ensures ApplyAll(s, [Tick(dt), CoinCollected(dt)]).sinceCoin == 0.0
  {
    var s1 := Apply(s, Tick(dt));
    assert s1.sinceCoin == s.sinceCoin + dt;
    assert [Tick(dt), CoinCollected(dt)][1..] == [CoinCollected(dt)];
    assert ApplyAll(s, [Tick(dt), CoinCollected(dt)]) == ApplyAll(s1, [CoinCollected(dt)]);
    assert [CoinCollected(dt)][1..] == [];
    assert ApplyAll(s1, [CoinCollected(dt)]) == Apply(s1, CoinCollected(dt));
    assert s1.sinceCoin + dt == s.sinceCoin + 2.0 * dt;
  }

  /** The running score of a game (Score in the source), updated in place by each event. */
  class Score {
    var currentScore: int
    var timeSinceLastCoin: real
    var consecutiveGhosts: int

    function Value(): ScoreValue
      reads this
    {
      ScoreValue(currentScore, timeSinceLastCoin, consecutiveGhosts)
    }

    ghost predicate Valid()
      reads this
    {
      consecutiveGhosts >= 0
    }

    constructor ()
      ensures Valid() && Value() == Initial
    {
      currentScore, timeSinceLastCoin, consecutiveGhosts := 0, 0.0, 0;
    }

    method OnCoinCollected(dt: real)
      requires Valid()
      modifies this
      ensures Valid() && Value() == Apply(old(Value()), CoinCollected(dt))
    {
      timeSinceLastCoin := timeSinceLastCoin + dt;
      var multiplier := 1;
      if timeSinceLastCoin < FastCollectTime {
        multiplier := 3;
      } else if timeSinceLastCoin < MediumCollectTime {
        multiplier := 2;
      }
      var points := BaseCoinScore * multiplier;
      currentScore := currentScore + points;
      timeSinceLastCoin := 0.0;
    }

    method OnFruitCollected()
      requires Valid()
      modifies this
      ensures Valid() && Value() == Apply(old(Value()), FruitCollected)
    {
      currentScore := currentScore + FruitScore;
      consecutiveGhosts := 0;
    }

    method OnGhostEaten()
      requires Valid()
      modifies this
      ensures Valid() && Value() == Apply(old(Value()), GhostEaten)
    {
      consecutiveGhosts := consecutiveGhosts + 1;
      var points := BaseGhostScore * consecutiveGhosts;
      currentScore := currentScore + points;
    }

    method OnPacmanDied()
      requires Valid()
      modifies this
      ensures Valid() && Value() == Apply(old(Value()), PacmanDied)
    {
      consecutiveGhosts := 0;
      timeSinceLastCoin := 0.0;
    }

    method OnLevelCleared()
      requires Valid()
      modifies this
      ensures Valid() && Value() == Apply(old(Value()), LevelCleared)
    {
      currentScore := currentScore + LevelClearBonus;
      consecutiveGhosts := 0;
      timeSinceLastCoin := 0.0;
    }

    method Update(dt: real)
      requires Valid()
      modifies this
      ensures Valid() && Value() == Apply(old(Value()), Tick(dt))
    {
      timeSinceLastCoin := timeSinceLastCoin + dt;
    }

    method ResetScore()
      modifies this
      ensures Valid() && Value() == Apply(old(Value()), Reset)
    {
      currentScore := 0;
      timeSinceLastCoin := 0.0;
      consecutiveGhosts := 0;
    }

    function GetCurrentScore(): int
      reads this
    {
      currentScore
    }
  }

  // ---------------------------------------------------------------------------------------------
  // High-score table

  const MaxScores: nat := 5

  datatype ScoreEntry = ScoreEntry(name: string, score: int)

  /** Non-increasing by score. */
  predicate Sorted(s: seq<ScoreEntry>)
  {
    forall i, j :: 0 <= i < j < |s| ==> s[i].score >= s[j].score
  }

  /** Places `e` after every entry scoring at least as much, so equal scores keep their order. */
  function Insert(e: ScoreEntry, t: seq<ScoreEntry>): (r: seq<ScoreEntry>)
    ensures |r| == |t| + 1
    ensures multiset(r) == multiset(t) + multiset{e}
  {
    if t == [] then [e]
    else if t[0].score >= e.score then
      assert t == [t[0]] + t[1..];
      [t[0]] + Insert(e, t[1..])
    else
      [e] + t
  }

  /** Inserting into a sorted list keeps it sorted. */
  lemma {:induction false} InsertSorted(e: ScoreEntry, t: seq<ScoreEntry>)
    requires Sorted(t)
    ensures Sorted(Insert(e, t))
  {
    if t == [] {
    } else if t[0].score >= e.score {
      InsertSorted(e, t[1..]);
      InsertBounded(e, t[1..], t[0].score);
      SortedCons(t[0], Insert(e, t[1..]));
    } else {
      SortedCons(e, t);
    }
  }

  /** No entry of an insertion scores above a bound that neither the list nor the entry exceeds. */
  lemma {:induction false} InsertBounded(e: ScoreEntry, t: seq<ScoreEntry>, b: int)
    requires e.score <= b && forall i :: 0 <= i < |t| ==> t[i].score <= b
    ensures forall j :: 0 <= j < |Insert(e, t)| ==> Insert(e, t)[j].score <= b
  {
    if t != [] && t[0].score >= e.score {
      InsertBounded(e, t[1..], b);
    }
  }

  lemma SortedCons(x: ScoreEntry, t: seq<ScoreEntry>)
    requires Sorted(t) && forall j :: 0 <= j < |t| ==> t[j].score <= x.score
    ensures Sorted([x] + t)
  {
    var r := [x] + t;
    forall i, j | 0 <= i < j < |r| ensures r[i].score >= r[j].score {
      if i > 0 {
        assert r[i] == t[i - 1] && r[j] == t[j - 1];
      } else {
        assert r[j] == t[j - 1];
      }
    }
  }

  /** A stable sort into non-increasing score order (the order `std::sort` produces up to ties). */
  function SortDesc(s: seq<ScoreEntry>): (r: seq<ScoreEntry>)
    ensures Sorted(r) && multiset(r) == multiset(s)
  {
    if s == [] then []
    else
      var init := s[..|s| - 1];
      assert s == init + [s[|s| - 1]];
      InsertSorted(s[|s| - 1], SortDesc(init));
      Insert(s[|s| - 1], SortDesc(init))
  }

  /** The first `MaxScores` entries, or all of them. */
  function TopFive(t: seq<ScoreEntry>): (r: seq<ScoreEntry>)
    ensures |r| == if |t| < MaxScores then |t| else MaxScores
    ensures r == t[..|r|]
  {
    if |t| > MaxScores then t[..MaxScores] else t
  }

  /** ScoreManager::addScore on the in-memory list: append, sort, keep the first five. */
  function Added(s: seq<ScoreEntry>, e: ScoreEntry): seq<ScoreEntry>
  {
    TopFive(SortDesc(s + [e]))
  }

  /** ScoreManager::isHighScore on a list. */
  predicate Qualifies(s: seq<ScoreEntry>, v: int)
  {
    |s| < MaxScores || v > s[|s| - 1].score
  }

  /** Of a sorted list, the first five are sorted, and nothing after them scores more than
      anything among them. */
  lemma TopFiveOfSorted(t: seq<ScoreEntry>)
    requires Sorted(t)
    ensures Sorted(TopFive(t))
    ensures forall d, k :: d in multiset(t) - multiset(TopFive(t)) && k in TopFive(t) ==> d.score <= k.score
  {
    var r := TopFive(t);
    var rest := t[|r|..];
    assert t == r + rest;
    assert multiset(t) - multiset(r) == multiset(rest);
    SuffixBelowPrefix(r, rest);
  }

  /** In a sorted concatenation every entry of the second part scores no more than any of the first. */
  lemma SuffixBelowPrefix(r: seq<ScoreEntry>, rest: seq<ScoreEntry>)
    requires Sorted(r + rest)
    ensures Sorted(r)
    ensures forall d, k :: d in multiset(rest) && k in r ==> d.score <= k.score
  {
    var t := r + rest;
    forall d: ScoreEntry, k: ScoreEntry | d in multiset(rest) && k in r
      ensures d.score <= k.score
    {
      var j :| 0 <= j < |rest| && rest[j] == d;
      var i :| 0 <= i < |r| && r[i] == k;
      assert t[i] == k && t[|r| + j] == d;
    }
    forall i, j | 0 <= i < j < |r| ensures r[i].score >= r[j].score {
      assert t[i] == r[i] && t[j] == r[j];
    }
  }

  /** The list after addScore is sorted, holds min(5, n + 1) entries taken from the old list
      plus the new entry, and every entry left out scores no more than any entry kept. */
  lemma AddedIsTopFive(s: seq<ScoreEntry>, e: ScoreEntry)
    ensures Sorted(Added(s, e))
    ensures |Added(s, e)| == if |s| + 1 < MaxScores then |s| + 1 else MaxScores
    ensures multiset(Added(s, e)) <= multiset(s + [e])
    ensures forall d, k :: d in multiset(s + [e]) - multiset(Added(s, e)) && k in Added(s, e) ==> d.score <= k.score
  {
    var t := SortDesc(s + [e]);
    TopFiveOfSorted(t);
    assert t == Added(s, e) + t[|Added(s, e)|..];
  }

  /** An entry no higher than every entry of a sorted list goes to its end. */
  lemma {:induction false} InsertLowest(e: ScoreEntry, t: seq<ScoreEntry>)
    requires forall i :: 0 <= i < |t| ==> t[i].score >= e.score
    ensures Insert(e, t) == t + [e]
  {
    if t != [] {
      InsertLowest(e, t[1..]);
    }
  }

  /** Sorting a sorted list changes nothing. */
  lemma {:induction false} SortDescOfSorted(s: seq<ScoreEntry>)
    requires Sorted(s)
    ensures SortDesc(s) == s
  {
    if s != [] {
      var init := s[..|s| - 1];
      SortDescOfSorted(init);
      InsertLowest(s[|s| - 1], init);
      assert init + [s[|s| - 1]] == s;
    }
  }

  /** An entry scoring more than the last entry of a list goes in front of it. */
  lemma {:induction false} InsertAboveLast(e: ScoreEntry, t: seq<ScoreEntry>)
    requires |t| > 0 && t[|t| - 1].score < e.score
    ensures Insert(e, t) == Insert(e, t[..|t| - 1]) + [t[|t| - 1]]
  {
    if |t| > 1 && t[0].score >= e.score {
      InsertAboveLast(e, t[1..]);
      assert t[1..][..|t| - 2] == t[..|t| - 1][1..];
    }
  }

  /** Adding to a sorted list of at most five entries is inserting into it. */
  lemma AddedToSorted(s: seq<ScoreEntry>, e: ScoreEntry)
    requires Sorted(s)
    ensures Added(s, e) == TopFive(Insert(e, s))
  {
    assert (s + [e])[..|s|] == s;
    SortDescOfSorted(s);
  }

  /** A score for which isHighScore holds enters the sorted table: nothing is dropped when the
      table has room, and only the old fifth place is dropped when it is full. */
  lemma {:induction false} HighScoreAdmitted(s: seq<ScoreEntry>, e: ScoreEntry)
    requires Sorted(s) && |s| <= MaxScores
    requires Qualifies(s, e.score)
    ensures e in Added(s, e)
    ensures |s| < MaxScores ==> multiset(Added(s, e)) == multiset(s) + multiset{e}
    ensures |s| == MaxScores ==> multiset(Added(s, e)) == multiset(s[..MaxScores - 1]) + multiset{e}
  {
    AddedToSorted(s, e);
    if |s| == MaxScores {
      InsertAboveLast(e, s);
      assert e in multiset(Insert(e, s[..MaxScores - 1]));
    } else {
      assert e in multiset(Insert(e, s));
    }
  }

  /** A score for which isHighScore fails leaves a full sorted table exactly as it was (the new
      entry sorts after every entry it ties with). */
  lemma {:induction false} LowScoreRejected(s: seq<ScoreEntry>, e: ScoreEntry)
    requires Sorted(s) && |s| == MaxScores
    requires !Qualifies(s, e.score)
    ensures Added(s, e) == s
  {
    AddedToSorted(s, e);
    InsertLowest(e, s);
    assert (s + [e])[..MaxScores] == s;
  }

  // ---------------------------------------------------------------------------------------------
  // Any order among equal scores
  //
  // std::sort with `a.score > b.score` may put entries of equal score in any order. The lemmas
  // below hold for every sorted permutation `r` of the appended list, not only for SortDesc.

  /** The score column of a table. */
  function ScoreColumn(s: seq<ScoreEntry>): (r: seq<int>)
    ensures |r| == |s|
    ensures forall i :: 0 <= i < |s| ==> r[i] == s[i].score
  {
    seq(|s|, i requires 0 <= i < |s| => s[i].score)
  }

  /** What std::sort may return: the same entries, by non-increasing score. */
  predicate SortedPermutation(r: seq<ScoreEntry>, s: seq<ScoreEntry>)
  {
    Sorted(r) && multiset(r) == multiset(s)
  }

  /** Equal tables of entries have equal bags of scores. */
  lemma {:induction false} ScoreBagsAgree(a: seq<ScoreEntry>, b: seq<ScoreEntry>)
    requires multiset(a) == multiset(b)
    ensures multiset(ScoreColumn(a)) == multiset(ScoreColumn(b))
    decreases |a|
  {
    if a != [] {
      var n := |a| - 1;
      var x := a[n];
      assert a == a[..n] + [x];
      assert x in multiset(b);
      var k :| 0 <= k < |b| && b[k] == x;
      var b' := b[..k] + b[k + 1..];
      assert b == b[..k] + [x] + b[k + 1..];
      Cancel(multiset(a[..n]), multiset(b'), x);
      ScoreBagsAgree(a[..n], b');
      ColumnAppend(a[..n], [x]);
      ColumnAppend(b[..k] + [x], b[k + 1..]);
      ColumnAppend(b[..k], [x]);
      ColumnAppend(b[..k], b[k + 1..]);
    }
  }

  /** The column of a concatenation is the concatenation of the columns. */
  lemma ColumnAppend(u: seq<ScoreEntry>, v: seq<ScoreEntry>)
    ensures ScoreColumn(u + v) == ScoreColumn(u) + ScoreColumn(v)
  {
  }

  /** Removing the same element from two equal bags leaves equal bags. */
  lemma Cancel<T>(a: multiset<T>, b: multiset<T>, x: T)
    requires a + multiset{x} == b + multiset{x}
    ensures a == b
  {
    forall y ensures a[y] == b[y] {
      assert (a + multiset{x})[y] == (b + multiset{x})[y];
    }
  }

  predicate NonIncreasing(p: seq<int>)
  {
    forall i, j :: 0 <= i < j < |p| ==> p[i] >= p[j]
  }

  lemma TailNonIncreasing(p: seq<int>)
    requires NonIncreasing(p) && p != []
    ensures NonIncreasing(p[1..])
  {
    forall i, j | 0 <= i < j < |p| - 1 ensures p[1..][i] >= p[1..][j] {
      assert p[1..][i] == p[i + 1] && p[1..][j] == p[j + 1];
    }
  }

  /** The head of a non-increasing list is its largest value. */
  lemma HeadIsLargest(p: seq<int>, v: int)
    requires NonIncreasing(p) && v in multiset(p)
    ensures p[0] >= v
  {
    var k :| 0 <= k < |p| && p[k] == v;
  }

  /** Two non-increasing integer lists with the same bag of values are the same list. */
  lemma {:induction false} NonIncreasingUnique(p: seq<int>, q: seq<int>)
    requires NonIncreasing(p) && NonIncreasing(q)
    requires multiset(p) == multiset(q)
    ensures p == q
    decreases |p|
  {
    assert |p| == |multiset(p)| == |multiset(q)| == |q|;
    if p != [] {
      HeadIsLargest(p, q[0]);
      HeadIsLargest(q, p[0]);
      assert p[0] == q[0];
      assert p == [p[0]] + p[1..] && q == [q[0]] + q[1..];
      assert multiset(p) == multiset(p[1..]) + multiset{p[0]};
      assert multiset(q) == multiset(q[1..]) + multiset{p[0]};
      Cancel(multiset(p[1..]), multiset(q[1..]), p[0]);
      TailNonIncreasing(p);
      TailNonIncreasing(q);
      NonIncreasingUnique(p[1..], q[1..]);
    }
  }

  /** Every sorted permutation of a table has the same score column: ties only swap entries
      of equal score. */
  lemma SortedPermutationsAgree(a: seq<ScoreEntry>, b: seq<ScoreEntry>)
    requires Sorted(a) && Sorted(b) && multiset(a) == multiset(b)
    ensures ScoreColumn(a) == ScoreColumn(b)
  {
    ScoreBagsAgree(a, b);
    NonIncreasingUnique(ScoreColumn(a), ScoreColumn(b));
  }

  /** A sorted permutation of a table of `n` entries has `n` entries and ends on its lowest score. */
  lemma SortedPermutationShape(r: seq<ScoreEntry>, t: seq<ScoreEntry>)
    requires SortedPermutation(r, t)
    ensures |r| == |t|
    ensures forall x :: x in multiset(t) && |r| > 0 ==> r[|r| - 1].score <= x.score
  {
    assert |r| == |multiset(r)| == |multiset(t)| == |t|;
    forall x | x in multiset(t) && |r| > 0 ensures r[|r| - 1].score <= x.score {
      var i :| 0 <= i < |r| && r[i] == x;
    }
  }

  /** Whatever order std::sort gives equal scores, addScore keeps a sorted table of
      min(5, n + 1) entries from the old table plus the new one, and drops nothing that scores
      more than an entry it keeps. */
  lemma AnySortIsTopFive(s: seq<ScoreEntry>, e: ScoreEntry, r: seq<ScoreEntry>)
    requires SortedPermutation(r, s + [e])
    ensures Sorted(TopFive(r))
    ensures |TopFive(r)| == if |s| + 1 < MaxScores then |s| + 1 else MaxScores
    ensures multiset(TopFive(r)) <= multiset(s + [e])
    ensures forall d, k :: d in multiset(s + [e]) - multiset(TopFive(r)) && k in TopFive(r) ==> d.score <= k.score
  {
    SortedPermutationShape(r, s + [e]);
    TopFiveOfSorted(r);
    assert r == TopFive(r) + r[|TopFive(r)|..];
  }

  /** The first entries of a table have the first scores of its column. */
  lemma ColumnPrefix(t: seq<ScoreEntry>, n: nat)
    requires n <= |t|
    ensures ScoreColumn(t[..n]) == ScoreColumn(t)[..n]
  {
  }

  /** Whatever order std::sort gives equal scores, the table after addScore has the same score
      column as Added. */
  lemma AnySortSameScores(s: seq<ScoreEntry>, e: ScoreEntry, r: seq<ScoreEntry>)
    requires SortedPermutation(r, s + [e])
    ensures ScoreColumn(TopFive(r)) == ScoreColumn(Added(s, e))
  {
    var t := SortDesc(s + [e]);
    SortedPermutationShape(r, s + [e]);
    SortedPermutationsAgree(r, t);
    ColumnPrefix(r, |TopFive(r)|);
    ColumnPrefix(t, |TopFive(r)|);
  }

  /** With a full table, the entry a sorted permutation of the table plus one drops is its last. */
  lemma DroppedIsLast(s: seq<ScoreEntry>, e: ScoreEntry, r: seq<ScoreEntry>)
    requires |s| == MaxScores && SortedPermutation(r, s + [e])
    ensures |r| == MaxScores + 1
    ensures multiset(TopFive(r)) + multiset{r[MaxScores]} == multiset(s) + multiset{e}
    ensures forall x :: x in multiset(s) + multiset{e} ==> r[MaxScores].score <= x.score
  {
    SortedPermutationShape(r, s + [e]);
    assert r == TopFive(r) + [r[MaxScores]];
    assert multiset(s + [e]) == multiset(s) + multiset{e};
  }

  /** A score for which isHighScore holds enters the table whatever the order of ties; when the
      table was full, the one entry dropped is an old entry scoring as the old fifth place,
      which is the old fifth place itself when it scored strictly below the fourth. */
  lemma HighScoreAdmittedAnySort(s: seq<ScoreEntry>, e: ScoreEntry, r: seq<ScoreEntry>)
    requires Sorted(s) && |s| <= MaxScores
    requires Qualifies(s, e.score)
    requires SortedPermutation(r, s + [e])
    ensures e in TopFive(r)
    ensures |s| < MaxScores ==> multiset(TopFive(r)) == multiset(s) + multiset{e}
    ensures |s| == MaxScores ==>
      exists d :: d in s && d.score == s[MaxScores - 1].score &&
        multiset(TopFive(r)) == multiset(s) - multiset{d} + multiset{e}
    ensures |s| == MaxScores && s[MaxScores - 2].score > s[MaxScores - 1].score ==>
      multiset(TopFive(r)) == multiset(s[..MaxScores - 1]) + multiset{e}
  {
    if |s| < MaxScores {
      SortedPermutationShape(r, s + [e]);
      assert TopFive(r) == r;
      assert multiset(s + [e]) == multiset(s) + multiset{e};
      assert e in multiset(TopFive(r));
    } else {
      var d := FullTableAdmitted(s, e, r);
      assert e in multiset(TopFive(r));
      if s[MaxScores - 2].score > s[MaxScores - 1].score {
        assert s == s[..MaxScores - 1] + [d];
      }
    }
  }

  /** HighScoreAdmittedAnySort for a full table; the entry returned is the one dropped, and it
      is the old fifth place itself when that scored strictly below the fourth. */
  lemma FullTableAdmitted(s: seq<ScoreEntry>, e: ScoreEntry, r: seq<ScoreEntry>) returns (d: ScoreEntry)
    requires Sorted(s) && |s| == MaxScores && e.score > s[MaxScores - 1].score
    requires SortedPermutation(r, s + [e])
    ensures d in s && d.score == s[MaxScores - 1].score
    ensures multiset(TopFive(r)) == multiset(s) - multiset{d} + multiset{e}
    ensures s[MaxScores - 2].score > s[MaxScores - 1].score ==> d == s[MaxScores - 1]
  {
    DroppedIsLast(s, e, r);
    d := r[MaxScores];
    assert s[MaxScores - 1] in multiset(s) + multiset{e};
    var j := FifthPlaceDropped(s, e, d);
    Exchange(multiset(TopFive(r)), multiset(s), d, e);
  }

  /** A bag that with `d` added equals another with `e` added is the other with `d` exchanged
      for `e`, when `d` is in the other. */
  lemma Exchange<T>(m: multiset<T>, n: multiset<T>, d: T, e: T)
    requires m + multiset{d} == n + multiset{e} && d in n
    ensures m == n - multiset{d} + multiset{e}
  {
    assert n == n - multiset{d} + multiset{d};
    Cancel(m, n - multiset{d} + multiset{e}, d);
  }

  /** The lowest entry of a sorted table plus a score above its last place is an old entry
      scoring as the last place; the index returned is its place, the last one when the place
      before scores more. */
  lemma FifthPlaceDropped(s: seq<ScoreEntry>, e: ScoreEntry, d: ScoreEntry) returns (j: nat)
    requires Sorted(s) && |s| > 1 && e.score > s[|s| - 1].score
    requires d in multiset(s) + multiset{e} && d.score <= s[|s| - 1].score
    ensures j < |s| && s[j] == d && d.score == s[|s| - 1].score
    ensures s[|s| - 2].score > s[|s| - 1].score ==> j == |s| - 1
  {
    assert d != e;
    assert d in multiset(s);
    j :| 0 <= j < |s| && s[j] == d;
  }

  /** A score for which isHighScore fails leaves a full table's score column as it was whatever
      the order of ties, and its entries too when it scores strictly below the fifth place. */
  lemma LowScoreRejectedAnySort(s: seq<ScoreEntry>, e: ScoreEntry, r: seq<ScoreEntry>)
    requires Sorted(s) && |s| == MaxScores
    requires !Qualifies(s, e.score)
    requires SortedPermutation(r, s + [e])
    ensures ScoreColumn(TopFive(r)) == ScoreColumn(s)
    ensures e.score < s[MaxScores - 1].score ==> multiset(TopFive(r)) == multiset(s)
  {
    LowScoreRejected(s, e);
    AnySortSameScores(s, e, r);
    if e.score < s[MaxScores - 1].score {
      DroppedIsLast(s, e, r);
      LowestIsDropped(s, e, r[MaxScores]);
      Cancel(multiset(TopFive(r)), multiset(s), e);
    }
  }

  /** An entry that scores strictly below every entry of a sorted table is the only entry of the
      table plus it that can score as low as it. */
  lemma LowestIsDropped(s: seq<ScoreEntry>, e: ScoreEntry, d: ScoreEntry)
    requires Sorted(s) && |s| > 0 && e.score < s[|s| - 1].score
    requires d in multiset(s) + multiset{e} && d.score <= e.score
    ensures d == e
  {
    if d != e {
      assert d in multiset(s);
      var j :| 0 <= j < |s| && s[j] == d;
    }
  }

  /** The high-score table: the in-memory list and the scores file it is saved to and reloaded from. */
  class ScoreManager {
    var scores: seq<ScoreEntry>
    var saved: seq<ScoreEntry>

    /** Loads the table from the file. */
    constructor (file: seq<ScoreEntry>)
      ensures scores == file && saved == file
    {
      scores := file;
      saved := file;
    }

    /** ScoreManager::addScore: append, sort by descending score, keep five, save. */
    method AddScore(name: string, score: int)
      modifies this
      ensures scores == Added(old(scores), ScoreEntry(name, score))
      ensures saved == scores
    {
      scores := scores + [ScoreEntry(name, score)];
      scores := SortDesc(scores);
      if |scores| > MaxScores {
        scores := scores[..MaxScores];
      }
      saved := scores;
    }

    /** ScoreManager::getTopScores: reloads the file, then returns its first `count` entries
        (all of them when there are fewer). */
    method GetTopScores(count: nat) returns (top: seq<ScoreEntry>)
      modifies this
      ensures scores == saved && saved == old(saved)
      ensures |top| == if count < |saved| then count else |saved|
      ensures top == saved[..|top|]
    {
      scores := saved;
      var numScores := if count < |scores| then count else |scores|;
      top := scores[..numScores];
    }

    /** ScoreManager::isHighScore. */
    predicate IsHighScore(score: int)
      reads this
    {
      Qualifies(scores, score)
    }
  }
}
