/** The random-number singleton, replaced by an explicit stream of draws. Each call consumes
    the draw at the head of the stream; an exhausted stream answers with the smallest value. */
module Randomness {

  type Rng = seq<nat>

  /** `after` is what is left of `before` once some draws have been taken from its front. */
  predicate Consumed(before: Rng, after: Rng)
  {
    |after| <= |before| && after == before[|before| - |after|..]
  }

  lemma ConsumedTransitive(a: Rng, b: Rng, c: Rng)
    requires Consumed(a, b) && Consumed(b, c)
    ensures Consumed(a, c)
  {
    assert b[|b| - |c|..] == a[|a| - |c|..];
  }

  /** Random::nextInt(0, n - 1): a value in [0, n). */
  function NextInt(rng: Rng, n: nat): (r: (nat, Rng))
    requires n > 0
    ensures r.0 < n
    ensures Consumed(rng, r.1) && (rng != [] ==> |r.1| == |rng| - 1)
  {
    if rng == [] then (0, []) else (rng[0] % n, rng[1..])
  }

  /** Random::nextBool(0.5). */
  function NextBool(rng: Rng): (r: (bool, Rng))
    ensures Consumed(rng, r.1) && (rng != [] ==> |r.1| == |rng| - 1)
  {
    if rng == [] then (false, []) else (rng[0] % 2 == 1, rng[1..])
  }
}
