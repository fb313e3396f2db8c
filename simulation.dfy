/**
 * The simulation itself: an object holding the inbox, the latency and
 * connection tables, the options and the clock. `Schedule` translates one
 * protocol output into inbox insertions and `Step` configures latencies,
 * drains the peers' queues and delivers the earliest scheduled input. Every
 * random draw is an argument; each method is proved against the value-level
 * specification of `SimSchedule`.
 */
module Simulator {
  import opened SimTypes
  import opened SimInbox
  import opened SimLatency
  import opened SimSchedule
  import ScheduleProperties
  import StepProperties

  /** No entry is left but timers. */
  ghost predicate OnlyTicks(m: Messages) {
    forall t :: t in m ==> m[t].input.Tick?
  }

  /** A simulation with nothing left to deliver has settled. */
  lemma DoneIsSettled(m: Messages)
    requires Earliest(m).None?
    ensures OnlyTicks(m)
  {
  }

  /**
   * In a settled simulation the next delivery, if any, is a timer; and so is
   * every later one, as long as nothing else is scheduled.
   */
  lemma SettledDeliversTick(m: Messages)
    requires OnlyTicks(m) && Earliest(m).Some?
    ensures Earliest(m).value.1.input.Tick?
    ensures OnlyTicks(m - {Earliest(m).value.0})
  {
  }

  /** Inserting anything but a timer unsettles the simulation. */
  lemma InsertUnsettles(m: Messages, t: Time, msg: Scheduled)
    requires !msg.input.Tick?
    ensures !OnlyTicks(Inserted(m, t, msg))
  {
    InsertedExtends(m, t, msg);
  }

  class Simulation {
    /** Inputs waiting to be delivered. */
    const inbox: Inbox
    /** Base latencies between nodes, filled in lazily. */
    var latencies: LatencyTable
    /** Open connections: the local port each one was opened from. */
    var connections: ConnectionTable
    const opts: Options
    const startTime: Time
    /** The current time: the time of the last delivered input. */
    var time: Time

    /** The simulation's state as a value. */
    ghost function State(): SimState
      reads this, inbox
    {
      SimState(inbox.messages, latencies, connections, time)
    }

    /** The clock never runs behind its start and the state keeps its invariant. */
    ghost predicate Valid()
      reads this, inbox
    {
      Inv(State()) && startTime <= time
    }

    /** An empty simulation starting at `time`. */
    constructor (time: Time, opts: Options)
      ensures Valid() && fresh(inbox)
      ensures State() == SimState(map[], map[], map[], time)
      ensures startTime == time && this.opts == opts
    {
      inbox := new Inbox();
      latencies := map[];
      connections := map[];
      this.opts := opts;
      startTime := time;
      this.time := time;
    }

    /** The simulation is done exactly when there is no next input to deliver. */
    function IsDone(): (done: bool)
      reads this, inbox
      ensures done <==> inbox.Next().None?
    {
      inbox.messages == map[]
    }

    /** The simulated time since the start. */
    function Elapsed(): (d: Duration)
      reads this
      requires startTime <= time
      ensures startTime + d == time
    {
      time - startTime
    }

    /**
     * The simulation has settled when only timers are left: the next input
     * to be delivered, if any, is then a `Tick`.
     */
    function IsSettled(): (settled: bool)
      reads this, inbox
      ensures settled <==> OnlyTicks(inbox.messages)
      ensures settled && !IsDone() ==> inbox.Next().value.1.input.Tick?
    {
      forall t | t in inbox.messages :: inbox.messages[t].input.Tick?
    }

    /** Translates `node`'s output `out` into scheduled inputs. */
    method Schedule(node: NodeId, out: Out, draws: Draws)
      requires Valid() && Schedulable(node, out)
      modifies this, inbox
      ensures State() == Translate(old(State()), opts.failureRate, node, out, draws)
      ensures Valid()
    {
      ghost var w := State();
      ScheduleProperties.TranslateKeepsInv(w, opts.failureRate, node, out, draws);
      match out
      case Message(receiver, msg) =>
        SendMessage(node, receiver, msg, draws);
      case Connect(remote, _) =>
        OpenConnection(node, remote, draws);
      case Disconnect(remote, reason) =>
        CloseConnection(node, remote, reason, draws);
      case SetTimeout(duration) =>
        inbox.Insert(time + duration, Scheduled(node, UNSPECIFIED, Tick));
      case Event(_) =>
    }

    /**
     * A message over the connection from `node` to `receiver`: dropped when
     * there is none, turned into a disconnect when the network fails, and
     * otherwise received after the latency.
     */
    method SendMessage(node: NodeId, receiver: PeerId, msg: NetworkMessage, draws: Draws)
      modifies this, inbox
      ensures State() == ScheduleMessage(old(State()), opts.failureRate, node, receiver, msg, draws)
    {
      if (node, receiver.ip) in connections {
        var sender := connections[(node, receiver.ip)].0;
        if IsFallible(draws.fault, opts.failureRate) {
          CloseConnection(node, receiver, ConnectionError(IO_ERROR), draws);
          return;
        }
        var latency := Latency(latencies, node, receiver.ip, draws.jitter);
        inbox.Insert(time + latency, Scheduled(receiver.ip, sender, Received(sender, msg)));
      }
    }

    /**
     * A connection attempt from `node` to `remote`, from a new ephemeral
     * local port.
     */
    method OpenConnection(node: NodeId, remote: PeerId, draws: Draws)
      modifies this, inbox
      ensures State() == ScheduleConnect(old(State()), opts.failureRate, node, remote, draws)
    {
      var local := SocketAddr(node, draws.port);
      var latency := Latency(latencies, node, remote.ip, draws.jitter);
      var connecting := Scheduled(node, remote, Connecting(remote));
      inbox.Insert(time + MIN_LATENCY, connecting);
      if IsFallible(draws.fault, opts.failureRate) {
        if draws.reportFailure {
          var failed := Scheduled(node, remote, Disconnected(remote, ConnectionError(CONNECT_FAILED)));
          inbox.Insert(time + MIN_LATENCY, failed);
        }
        return;
      }
      Establish(node, remote, local, latency);
    }

    /**
     * A successful connection attempt: the connection is registered in both
     * directions and `Connected` is scheduled at the remote, then at `node`.
     */
    method Establish(node: NodeId, remote: PeerId, local: SocketAddr, latency: Duration)
      modifies this, inbox
      ensures connections == old(connections)[(node, remote.ip) := (local, remote)][(remote.ip, node) := (remote, local)]
      ensures inbox.messages == Inserted(Inserted(old(inbox.messages), old(time) + latency, Scheduled(remote.ip, local, Connected(local, remote, Inbound))),
                                         old(time) + latency, Scheduled(node, remote, Connected(remote, local, Outbound)))
      ensures latencies == old(latencies) && time == old(time)
    {
      connections := connections[(node, remote.ip) := (local, remote)];
      connections := connections[(remote.ip, node) := (remote, local)];
      inbox.Insert(time + latency, Scheduled(remote.ip, local, Connected(local, remote, Inbound)));
      inbox.Insert(time + latency, Scheduled(node, remote, Connected(remote, local, Outbound)));
    }

    /** Closes the connection from `node` to `remote`, if there is one, at both ends. */
    method CloseConnection(node: NodeId, remote: PeerId, reason: DisconnectReason, draws: Draws)
      modifies this, inbox
      ensures State() == ScheduleDisconnect(old(State()), node, remote, reason, draws)
    {
      if (node, remote.ip) in connections {
        var local := connections[(node, remote.ip)].0;
        connections := connections - {(node, remote.ip)};
        connections := connections - {(remote.ip, node)};
        var latency := Latency(latencies, node, remote.ip, draws.jitter);
        inbox.Insert(time, Scheduled(node, remote, Disconnected(remote, reason)));
        inbox.Insert(time + latency, Scheduled(remote.ip, local, Disconnected(local, ConnectionError(REMOTE_CLOSED))));
      }
    }

    /** Translates every output in `outs`, in order. */
    method Drain(node: NodeId, outs: seq<Out>, draws: seq<Draws>)
      requires Valid() && |draws| == |outs| && QueueSchedulable(node, outs)
      modifies this, inbox
      ensures State() == Drained(old(State()), opts.failureRate, node, outs, draws)
      ensures Valid()
    {
      var k := 0;
      while k < |outs|
        invariant k <= |outs| && Valid()
        invariant State() == Drained(old(State()), opts.failureRate, node, outs[..k], draws[..k])
      {
        assert outs[..k + 1][..k] == outs[..k] && draws[..k + 1][..k] == draws[..k];
        Schedule(node, outs[k], draws[k]);
        k := k + 1;
      }
      assert outs[..k] == outs && draws[..k] == draws;
    }

    /** Drains every peer's queue, peer by peer. */
    method DrainQueues(peers: seq<Peer>, draws: seq<seq<Draws>>)
      requires Valid() && DrawsFit(peers, draws)
      modifies this, inbox
      ensures State() == DrainedAll(old(State()), opts.failureRate, peers, draws)
      ensures Valid()
    {
      var p := 0;
      while p < |peers|
        invariant p <= |peers| && Valid()
        invariant DrawsFit(peers[..p], draws[..p])
        invariant State() == DrainedAll(old(State()), opts.failureRate, peers[..p], draws[..p])
      {
        assert peers[..p + 1][..p] == peers[..p] && draws[..p + 1][..p] == draws[..p];
        Drain(peers[p].addr.ip, peers[p].upstream, draws[p]);
        p := p + 1;
      }
      assert peers[..p] == peers && draws[..p] == draws;
    }

    /**
     * Offers every pair of distinct positions `i < j` of `ids` the base
     * latency `draw(i, j)` in both directions, keeping entries already set.
     */
    method ConfigureLatencies(ids: seq<NodeId>, draw: (nat, nat) -> nat)
      requires !opts.latency.IsEmpty()
      modifies this
      ensures latencies == Configured(old(latencies), opts.latency, ids, |ids|, draw)
      ensures connections == old(connections) && time == old(time)
    {
      var i := 0;
      while i < |ids|
        invariant i <= |ids|
        invariant latencies == Configured(old(latencies), opts.latency, ids, i, draw)
        invariant connections == old(connections) && time == old(time)
      {
        ConfigureRow(ids, i, draw);
        i := i + 1;
      }
    }

    /**
     * Offers every pair `(ids[i], ids[j])`, `i < j`, the base latency
     * `draw(i, j)` in both directions, keeping entries already set.
     */
    method ConfigureRow(ids: seq<NodeId>, i: nat, draw: (nat, nat) -> nat)
      requires !opts.latency.IsEmpty() && i < |ids|
      modifies this
      ensures latencies == ConfiguredRow(old(latencies), opts.latency, ids, i, |ids|, draw)
      ensures connections == old(connections) && time == old(time)
    {
      var j := i + 1;
      while j < |ids|
        invariant i < j <= |ids|
        invariant latencies == ConfiguredRow(old(latencies), opts.latency, ids, i, j, draw)
        invariant connections == old(connections) && time == old(time)
      {
        var l := BaseLatency(opts.latency, draw(i, j));
        if (ids[i], ids[j]) !in latencies {
          latencies := latencies[(ids[i], ids[j]) := l];
        }
        if (ids[j], ids[i]) !in latencies {
          latencies := latencies[(ids[j], ids[i]) := l];
        }
        j := j + 1;
      }
    }

    /**
     * One step: configure the latencies between the peers, drain their
     * queues, then deliver the earliest scheduled input, move the clock to
     * its time and translate the delivered node's reaction. Returns whether
     * anything is left to deliver.
     */
    method Step(peers: seq<Peer>, draw: (nat, nat) -> nat, draws: seq<seq<Draws>>,
                reaction: seq<Out>, reactionDraws: seq<Draws>) returns (more: bool)
      requires Valid() && DistinctIps(peers)
      requires StepFits(State(), opts, peers, draw, draws, reaction, reactionDraws)
      requires NodeFound(Prepared(State(), opts, peers, draw, draws), peers)
      modifies this, inbox
      ensures State() == StepSpec(old(State()), opts, peers, draw, draws, reaction, reactionDraws)
      ensures Valid() && old(time) <= time && old(Elapsed()) <= Elapsed()
      ensures more <==> !IsDone()
    {
      ghost var w := State();
      if !opts.latency.IsEmpty() {
        ConfigureLatencies(Ips(peers), draw);
        StepProperties.ConfiguredSound(w.latencies, opts.latency, Ips(peers), |peers|, draw);
      }
      DrainQueues(peers, draws);
      ghost var prepared := State();
      assert prepared == Prepared(w, opts, peers, draw, draws);
      var next := inbox.Next();
      if next.Some? {
        var (t, entry) := next.value;
        // Time only moves forwards.
        assert time <= t;
        time := t;
        inbox.messages := inbox.messages - {t};
        Drain(entry.node, reaction, reactionDraws);
      }
      more := !IsDone();
      StepProperties.StepKeepsInv(w, opts, peers, draw, draws, reaction, reactionDraws);
    }
  }
}
