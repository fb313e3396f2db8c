/**
 * What draining output queues, configuring latencies and stepping the
 * simulation guarantee: the invariant they keep (symmetric tables, no
 * self-connection, nothing scheduled in the past), that no scheduled entry is
 * lost other than the one delivered, and that time only moves forwards.
 */
module StepProperties {
  import opened SimTypes
  import opened SimInbox
  import opened SimLatency
  import opened SimSchedule
  import opened ScheduleProperties

  // ---------------------------------------------------------------------
  // Draining output queues
  // ---------------------------------------------------------------------

  /** Draining a queue keeps the invariant, the clock and the latencies, and drops no entry. */
  lemma {:induction false} DrainedKeepsInv(w: SimState, failureRate: real, node: NodeId, outs: seq<Out>, draws: seq<Draws>)
    requires Inv(w) && |draws| == |outs| && QueueSchedulable(node, outs)
    ensures var r := Drained(w, failureRate, node, outs, draws);
            Inv(r) && r.time == w.time && r.latencies == w.latencies && Extends(w.inbox, r.inbox)
    decreases |outs|
  {
    if outs != [] {
      var n := |outs| - 1;
      DrainedKeepsInv(w, failureRate, node, outs[..n], draws[..n]);
      var mid := Drained(w, failureRate, node, outs[..n], draws[..n]);
      TranslateKeepsInv(mid, failureRate, node, outs[n], draws[n]);
    }
  }

  /** Draining every peer's queue keeps the invariant, the clock and the latencies, and drops no entry. */
  lemma {:induction false} DrainedAllKeepsInv(w: SimState, failureRate: real, peers: seq<Peer>, draws: seq<seq<Draws>>)
    requires Inv(w) && DrawsFit(peers, draws)
    ensures var r := DrainedAll(w, failureRate, peers, draws);
            Inv(r) && r.time == w.time && r.latencies == w.latencies && Extends(w.inbox, r.inbox)
    decreases |peers|
  {
    if peers != [] {
      var n := |peers| - 1;
      assert DrawsFit(peers[..n], draws[..n]);
      DrainedAllKeepsInv(w, failureRate, peers[..n], draws[..n]);
      var mid := DrainedAll(w, failureRate, peers[..n], draws[..n]);
      DrainedKeepsInv(mid, failureRate, peers[n].addr.ip, peers[n].upstream, draws[n]);
    }
  }

  // ---------------------------------------------------------------------
  // Configuring latencies
  // ---------------------------------------------------------------------

  /** Every entry the configuration added lies in the configured range, in milliseconds. */
  ghost predicate AddedWithin(before: LatencyTable, after: LatencyTable, range: Range) {
    forall k :: k in after && k !in before ==> range.start * 1000 <= after[k] < range.end * 1000
  }

  /**
   * Offering a base latency to a pair assigns the same value to both
   * directions, never overwrites an entry, and keeps the table symmetric.
   */
  lemma OfferedKeepsSymmetry(lat: LatencyTable, from: NodeId, to: NodeId, l: Duration)
    requires LatenciesSymmetric(lat)
    ensures var r := Offered(lat, from, to, l);
            && LatenciesSymmetric(r)
            && Extends(lat, r)
            && (from, to) in r && (to, from) in r
            && (forall k :: k in r && k !in lat ==> r[k] == l)
  {
    var r := Offered(lat, from, to, l);
    if (from, to) !in lat {
      assert (to, from) !in lat;
      forall k | k in r
        ensures (k.1, k.0) in r && r[(k.1, k.0)] == r[k]
      {
        if k != (from, to) && k != (to, from) {
          assert k in lat;
        }
      }
    }
  }

  /** Configuring one row keeps the table symmetric, overwrites nothing, and covers the row's pairs. */
  lemma {:induction false} ConfiguredRowSound(lat: LatencyTable, range: Range, ids: seq<NodeId>, i: nat, j: nat, draw: (nat, nat) -> nat)
    requires !range.IsEmpty() && i < j <= |ids| && LatenciesSymmetric(lat)
    ensures var r := ConfiguredRow(lat, range, ids, i, j, draw);
            && LatenciesSymmetric(r)
            && Extends(lat, r)
            && AddedWithin(lat, r, range)
            && forall k :: i < k < j ==> (ids[i], ids[k]) in r && (ids[k], ids[i]) in r
    decreases j
  {
    if j > i + 1 {
      ConfiguredRowSound(lat, range, ids, i, j - 1, draw);
      var mid := ConfiguredRow(lat, range, ids, i, j - 1, draw);
      var l := BaseLatency(range, draw(i, j - 1));
      OfferedKeepsSymmetry(mid, ids[i], ids[j - 1], l);
    }
  }

  /**
   * Configuring the latencies of `n` rows keeps the table symmetric, never
   * overwrites an existing entry, and draws every new entry from the
   * configured range.
   */
  lemma {:induction false} ConfiguredSound(lat: LatencyTable, range: Range, ids: seq<NodeId>, n: nat, draw: (nat, nat) -> nat)
    requires !range.IsEmpty() && n <= |ids| && LatenciesSymmetric(lat)
    ensures var r := Configured(lat, range, ids, n, draw);
            LatenciesSymmetric(r) && Extends(lat, r) && AddedWithin(lat, r, range)
  {
    if n > 0 {
      ConfiguredSound(lat, range, ids, n - 1, draw);
      var mid := Configured(lat, range, ids, n - 1, draw);
      var r := ConfiguredRow(mid, range, ids, n - 1, |ids|, draw);
      ConfiguredRowSound(mid, range, ids, n - 1, |ids|, draw);
      ExtendsTransitive(lat, mid, r);
      AddedWithinTransitive(lat, mid, r, range);
    }
  }

  /**
   * After `n` rows are configured, every pair of distinct positions among
   * those rows has a base latency in both directions.
   */
  lemma {:induction false} ConfiguredCovers(lat: LatencyTable, range: Range, ids: seq<NodeId>, n: nat, draw: (nat, nat) -> nat)
    requires !range.IsEmpty() && n <= |ids| && LatenciesSymmetric(lat)
    ensures var r := Configured(lat, range, ids, n, draw);
            forall a, b :: 0 <= a < n && a < b < |ids| ==> (ids[a], ids[b]) in r && (ids[b], ids[a]) in r
  {
    if n > 0 {
      ConfiguredCovers(lat, range, ids, n - 1, draw);
      ConfiguredSound(lat, range, ids, n - 1, draw);
      var mid := Configured(lat, range, ids, n - 1, draw);
      var r := ConfiguredRow(mid, range, ids, n - 1, |ids|, draw);
      ConfiguredRowSound(mid, range, ids, n - 1, |ids|, draw);
      forall a, b | 0 <= a < n && a < b < |ids|
        ensures (ids[a], ids[b]) in r && (ids[b], ids[a]) in r
      {
        if a < n - 1 {
          assert (ids[a], ids[b]) in mid && (ids[b], ids[a]) in mid;
        }
      }
    }
  }

  /** Entries added in two rounds, each within the range, are all within the range. */
  lemma AddedWithinTransitive(a: LatencyTable, b: LatencyTable, c: LatencyTable, range: Range)
    requires Extends(a, b) && Extends(b, c) && AddedWithin(a, b, range) && AddedWithin(b, c, range)
    ensures AddedWithin(a, c, range)
  {
    forall k | k in c && k !in a
      ensures range.start * 1000 <= c[k] < range.end * 1000
    {
      if k in b {
        assert c[k] == b[k];
      }
    }
  }

  // ---------------------------------------------------------------------
  // One step
  // ---------------------------------------------------------------------

  /** The earliest scheduled entry is never in the past ("time only moves forwards"). */
  lemma NextIsNotPast(w: SimState)
    requires Inv(w) && Earliest(w.inbox).Some?
    ensures w.time <= Earliest(w.inbox).value.0
  {
  }

  /** Preparing a step keeps the invariant and the clock, and drops no entry. */
  lemma PreparedKeepsInv(w: SimState, opts: Options, peers: seq<Peer>, draw: (nat, nat) -> nat, draws: seq<seq<Draws>>)
    requires Inv(w) && DrawsFit(peers, draws)
    ensures var r := Prepared(w, opts, peers, draw, draws);
            Inv(r) && r.time == w.time && Extends(w.inbox, r.inbox)
  {
    var configured :=
      if opts.latency.IsEmpty() then w
      else w.(latencies := Configured(w.latencies, opts.latency, Ips(peers), |peers|, draw));
    if !opts.latency.IsEmpty() {
      ConfiguredSound(w.latencies, opts.latency, Ips(peers), |peers|, draw);
    }
    DrainedAllKeepsInv(configured, opts.failureRate, peers, draws);
  }

  /**
   * When a latency range is configured, preparing a step leaves every pair
   * of distinct peers with a base latency in both directions.
   */
  lemma PreparedCoversPeers(w: SimState, opts: Options, peers: seq<Peer>, draw: (nat, nat) -> nat, draws: seq<seq<Draws>>)
    requires Inv(w) && DrawsFit(peers, draws) && !opts.latency.IsEmpty()
    ensures var l := Prepared(w, opts, peers, draw, draws).latencies;
            forall a, b :: 0 <= a < b < |peers| ==>
              (peers[a].addr.ip, peers[b].addr.ip) in l && (peers[b].addr.ip, peers[a].addr.ip) in l
  {
    var ids := Ips(peers);
    var configured := w.(latencies := Configured(w.latencies, opts.latency, ids, |peers|, draw));
    ConfiguredSound(w.latencies, opts.latency, ids, |peers|, draw);
    ConfiguredCovers(w.latencies, opts.latency, ids, |peers|, draw);
    DrainedAllKeepsInv(configured, opts.failureRate, peers, draws);
  }

  /**
   * Delivery keeps the invariant; when the inbox is not empty the clock moves
   * to the earliest entry's time, which is no earlier than before, and every
   * other entry stays scheduled.
   */
  lemma DeliveredKeepsInv(w: SimState, failureRate: real, reaction: seq<Out>, reactionDraws: seq<Draws>)
    requires Inv(w) && ReactionFits(w, reaction, reactionDraws)
    ensures var r := Delivered(w, failureRate, reaction, reactionDraws);
            && Inv(r)
            && w.time <= r.time
            && (w.inbox == map[] ==> r == w)
            && (w.inbox != map[] ==> var t := Earliest(w.inbox).value.0;
                  r.time == t && Extends(w.inbox - {t}, r.inbox))
  {
    match Earliest(w.inbox)
    case None =>
    case Some((t, next)) =>
      var popped := w.(time := t, inbox := w.inbox - {t});
      assert Inv(popped);
      DrainedKeepsInv(popped, failureRate, next.node, reaction, reactionDraws);
  }

  /**
   * One step keeps the invariant (symmetric tables, no self-connection,
   * nothing scheduled in the past), never moves the clock backwards, and
   * loses no entry other than the one it delivers.
   */
  lemma StepKeepsInv(w: SimState, opts: Options, peers: seq<Peer>, draw: (nat, nat) -> nat, draws: seq<seq<Draws>>,
                     reaction: seq<Out>, reactionDraws: seq<Draws>)
    requires Inv(w) && StepFits(w, opts, peers, draw, draws, reaction, reactionDraws)
    ensures var r := StepSpec(w, opts, peers, draw, draws, reaction, reactionDraws);
            var p := Prepared(w, opts, peers, draw, draws);
            && Inv(r)
            && w.time <= r.time
            && Extends(w.inbox, p.inbox)
            && (p.inbox != map[] ==> var t := Earliest(p.inbox).value.0;
                  r.time == t && Extends(p.inbox - {t}, r.inbox))
  {
    PreparedKeepsInv(w, opts, peers, draw, draws);
    var p := Prepared(w, opts, peers, draw, draws);
    DeliveredKeepsInv(p, opts.failureRate, reaction, reactionDraws);
  }
}
