/**
 * Latency and failure injection. Every random choice of the simulator is an
 * explicit argument here: a draw `rng.u128(lo..hi)` is given as an arbitrary
 * natural number `raw` and taken modulo the width of the range, and a draw
 * `rng.f64()` as a real number in `[0, 1)`.
 */
module SimLatency {
  import opened SimTypes

  /** Base latencies, per ordered pair of nodes, in milliseconds. */
  type LatencyTable = map<(NodeId, NodeId), Duration>

  /** The random jitter applied to one delivery: its direction and its raw draw. */
  datatype Jitter = Jitter(slower: bool, raw: nat)

  /**
   * The remainder of `raw` by `n`, taken by repeated subtraction; it keeps
   * nonlinear arithmetic out of every formula that mentions a draw.
   */
  function Reduce(raw: nat, n: nat): (v: nat)
    requires 0 < n
    ensures v < n
    decreases raw
  {
    if raw < n then raw else Reduce(raw - n, n)
  }

  /** `Reduce` is the remainder of division by `n`: `raw` is some multiple of `n` plus it. */
  lemma {:induction false} ReduceIsRemainder(raw: nat, n: nat) returns (q: nat)
    requires 0 < n
    ensures raw == q * n + Reduce(raw, n)
    decreases raw
  {
    if raw < n {
      q := 0;
    } else {
      var q0 := ReduceIsRemainder(raw - n, n);
      q := q0 + 1;
      assert q * n == q0 * n + n;
    }
  }

  /** The value a uniform draw from the range `lo..hi` gives for the raw draw `raw`. */
  function Sample(lo: nat, hi: nat, raw: nat): (v: nat)
    requires lo < hi
    ensures lo <= v < hi
  {
    lo + Reduce(raw, hi - lo)
  }

  /** Every value of the range `lo..hi` is the outcome of some draw. */
  lemma SampleCovers(lo: nat, hi: nat, v: nat)
    requires lo <= v < hi
    ensures exists raw: nat :: Sample(lo, hi, raw) == v
  {
    assert Sample(lo, hi, v - lo) == v;
  }

  /**
   * The latency of one delivery from `from` to `to`: `MIN_LATENCY` when the
   * pair has no base latency, the base itself when it is at most
   * `MIN_LATENCY`, and otherwise the base jittered up by less than the base
   * or down by less than half of it.
   */
  function Latency(latencies: LatencyTable, from: NodeId, to: NodeId, jitter: Jitter): (d: Duration)
    ensures (from, to) !in latencies ==> d == MIN_LATENCY
    ensures (from, to) in latencies && latencies[(from, to)] <= MIN_LATENCY ==> d == latencies[(from, to)]
    ensures (from, to) in latencies && latencies[(from, to)] > MIN_LATENCY ==>
              var l := latencies[(from, to)];
              l - l / 2 < d <= 2 * l - 1
  {
    if (from, to) !in latencies then
      MIN_LATENCY
    else
      var l := latencies[(from, to)];
      if l <= MIN_LATENCY then
        l
      else if jitter.slower then
        l + Reduce(jitter.raw, l)
      else
        l - Reduce(jitter.raw, l / 2)
  }

  /**
   * The jittered latency of a pair whose base `l` exceeds `MIN_LATENCY` can
   * take every value strictly above `l - l / 2` and below `2 * l`: the bounds
   * of `Latency` are exact.
   */
  lemma LatencyCoversRange(latencies: LatencyTable, from: NodeId, to: NodeId, d: Duration)
    requires (from, to) in latencies && latencies[(from, to)] > MIN_LATENCY
    requires var l := latencies[(from, to)]; l - l / 2 < d <= 2 * l - 1
    ensures exists jitter :: Latency(latencies, from, to, jitter) == d
  {
    var l := latencies[(from, to)];
    if d >= l {
      assert Latency(latencies, from, to, Jitter(true, d - l)) == d;
    } else {
      assert Latency(latencies, from, to, Jitter(false, l - d)) == d;
    }
  }

  /**
   * A base latency drawn from the configured range, which is given in
   * seconds and drawn in milliseconds.
   */
  function BaseLatency(range: Range, raw: nat): (l: Duration)
    requires !range.IsEmpty()
    ensures range.start * 1000 <= l < range.end * 1000
  {
    Sample(range.start * 1000, range.end * 1000, raw)
  }

  /**
   * Whether the next network operation fails, given the draw `sample` of
   * `rng.f64()`: it fails when the draw is below the failure rate. A rate of
   * zero never fails and a rate of one always does.
   */
  function IsFallible(sample: Unit, failureRate: real): (fails: bool)
    ensures failureRate <= 0.0 ==> !fails
    ensures 1.0 <= failureRate ==> fails
  {
    sample < failureRate
  }
}
