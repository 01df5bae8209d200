/** The secure random source `random_int($min, $max)`, as an oracle.

    A run of the program is given a stream of integers; its k-th call
    `random_int(lo, hi)` answers `Draw(stream, k, lo, hi)`: the k-th entry of
    the stream, moved into `[lo, hi]` when it lies outside. Every sequence of
    in-range answers is produced by some stream (the stream of those answers,
    see `EveryAnswerReachable`), so a property proved for every stream holds
    for every behaviour of the oracle. Nothing is assumed about the
    distribution. */
module Random {

  /** The answer of the k-th call `random_int(lo, hi)`. */
  function Draw(stream: nat -> int, k: nat, lo: int, hi: int): (r: int)
    requires lo <= hi
    ensures lo <= r <= hi
    ensures lo <= stream(k) <= hi ==> r == stream(k)
  {
    if stream(k) < lo then lo else if stream(k) > hi then hi else stream(k)
  }

  /** The oracle is unconstrained: for any answers `answers[0], answers[1], ...`
      that calls k0, k0+1, ... should give, some stream makes them give exactly
      those. */
  lemma EveryAnswerReachable(answers: seq<int>, bounds: seq<(int, int)>, k0: nat)
    requires |answers| == |bounds|
    requires forall i :: 0 <= i < |bounds| ==> bounds[i].0 <= answers[i] <= bounds[i].1
    ensures var stream := (k: nat) => if k0 <= k < k0 + |answers| then answers[k - k0] else 0;
            forall i :: 0 <= i < |answers| ==> Draw(stream, k0 + i, bounds[i].0, bounds[i].1) == answers[i]
  {
  }
}
