/**
 * The simulation's state as a value, and the specification of how one
 * protocol output is translated into inbox insertions (`schedule`), how the
 * latency table is filled in, and what one step of the simulation does.
 */
module SimSchedule {
  import opened SimTypes
  import opened SimInbox
  import opened SimLatency

  /** Open connections: (local node, remote node) to (local endpoint, remote endpoint). */
  type ConnectionTable = map<(NodeId, NodeId), (SocketAddr, SocketAddr)>

  /** The random draws that translating one output may consume. */
  datatype Draws = Draws(fault: Unit, reportFailure: bool, jitter: Jitter, port: EphemeralPort)

  /** The mutable state of a simulation. */
  datatype SimState = SimState(inbox: Messages, latencies: LatencyTable, connections: ConnectionTable, time: Time)

  /**
   * The connection table is symmetric: (a, b) maps to (x, y) exactly when
   * (b, a) maps to (y, x); the endpoints belong to the nodes of the key, and
   * no node is connected to itself.
   */
  ghost predicate ConnectionsSymmetric(c: ConnectionTable) {
    forall a, b :: (a, b) in c ==>
      && a != b
      && c[(a, b)].0.ip == a
      && c[(a, b)].1.ip == b
      && (b, a) in c
      && c[(b, a)] == (c[(a, b)].1, c[(a, b)].0)
  }

  /** Both directions between two nodes have the same base latency. */
  ghost predicate LatenciesSymmetric(l: LatencyTable) {
    forall a, b :: (a, b) in l ==> (b, a) in l && l[(b, a)] == l[(a, b)]
  }

  ghost predicate Inv(w: SimState) {
    ConnectionsSymmetric(w.connections) && LatenciesSymmetric(w.latencies) && NothingPast(w.inbox, w.time)
  }

  /**
   * The outputs the simulator can translate: `Shutdown` is not implemented
   * and a node may not connect to itself.
   */
  predicate Schedulable(node: NodeId, out: Out) {
    !out.Shutdown? && (out.Connect? ==> out.remote.ip != node)
  }

  ghost predicate QueueSchedulable(node: NodeId, outs: seq<Out>) {
    forall o :: o in outs ==> Schedulable(node, o)
  }

  /**
   * A message to `receiver` travels over the open connection: it is dropped
   * when there is none, turns into a disconnect with an I/O error when the
   * network fails, and is otherwise received from the connection's local
   * endpoint after the jittered latency.
   */
  ghost function ScheduleMessage(w: SimState, failureRate: real, node: NodeId, receiver: PeerId, msg: NetworkMessage, draws: Draws): SimState {
    if (node, receiver.ip) !in w.connections then
      w
    else if IsFallible(draws.fault, failureRate) then
      ScheduleDisconnect(w, node, receiver, ConnectionError(IO_ERROR), draws)
    else
      var sender := w.connections[(node, receiver.ip)].0;
      var latency := Latency(w.latencies, node, receiver.ip, draws.jitter);
      w.(inbox := Inserted(w.inbox, w.time + latency, Scheduled(receiver.ip, sender, Received(sender, msg))))
  }

  /**
   * A connection attempt from `node` to `remote`: `Connecting` is announced
   * one `MIN_LATENCY` later; a failed attempt is reported (or not) as
   * `Disconnected`, and a successful one registers the connection in both
   * directions and schedules `Connected` at the remote, then at `node`.
   */
  ghost function ScheduleConnect(w: SimState, failureRate: real, node: NodeId, remote: PeerId, draws: Draws): SimState {
    var local := SocketAddr(node, draws.port);
    var latency := Latency(w.latencies, node, remote.ip, draws.jitter);
    var announced := Inserted(w.inbox, w.time + MIN_LATENCY, Scheduled(node, remote, Connecting(remote)));
    if IsFallible(draws.fault, failureRate) then
      if draws.reportFailure then
        var failed := Scheduled(node, remote, Disconnected(remote, ConnectionError(CONNECT_FAILED)));
        w.(inbox := Inserted(announced, w.time + MIN_LATENCY, failed))
      else
        w.(inbox := announced)
    else
      var inbound := Scheduled(remote.ip, local, Connected(local, remote, Inbound));
      var outbound := Scheduled(node, remote, Connected(remote, local, Outbound));
      w.(connections := w.connections[(node, remote.ip) := (local, remote)][(remote.ip, node) := (remote, local)],
         inbox := Inserted(Inserted(announced, w.time + latency, inbound), w.time + latency, outbound))
  }

  /**
   * Closing the connection from `node` to `remote`: nothing happens when
   * there is none; otherwise both directions are removed, `node` is told
   * now with the given reason and `remote` after the jittered latency.
   */
  ghost function ScheduleDisconnect(w: SimState, node: NodeId, remote: PeerId, reason: DisconnectReason, draws: Draws): SimState {
    if (node, remote.ip) !in w.connections then
      w
    else
      var local := w.connections[(node, remote.ip)].0;
      var latency := Latency(w.latencies, node, remote.ip, draws.jitter);
      var here := Scheduled(node, remote, Disconnected(remote, reason));
      var there := Scheduled(remote.ip, local, Disconnected(local, ConnectionError(REMOTE_CLOSED)));
      w.(connections := w.connections - {(node, remote.ip), (remote.ip, node)},
         inbox := Inserted(Inserted(w.inbox, w.time, here), w.time + latency, there))
  }

  /** A timer: `node` is sent a `Tick` from the unspecified address after `duration`. */
  ghost function ScheduleTimeout(w: SimState, node: NodeId, duration: Duration): SimState {
    w.(inbox := Inserted(w.inbox, w.time + duration, Scheduled(node, UNSPECIFIED, Tick)))
  }

  /** The state after `node`'s output `out` is translated into scheduled inputs. */
  ghost function Translate(w: SimState, failureRate: real, node: NodeId, out: Out, draws: Draws): SimState
    requires Schedulable(node, out)
  {
    match out
    case Message(receiver, msg) => ScheduleMessage(w, failureRate, node, receiver, msg, draws)
    case Connect(remote, _) => ScheduleConnect(w, failureRate, node, remote, draws)
    case Disconnect(remote, reason) => ScheduleDisconnect(w, node, remote, reason, draws)
    case SetTimeout(duration) => ScheduleTimeout(w, node, duration)
    case Event(_) => w
  }

  /** The state after each of `outs`, in queue order, is translated. */
  ghost function Drained(w: SimState, failureRate: real, node: NodeId, outs: seq<Out>, draws: seq<Draws>): SimState
    requires |draws| == |outs| && QueueSchedulable(node, outs)
    decreases |outs|
  {
    if outs == [] then
      w
    else
      var n := |outs| - 1;
      Translate(Drained(w, failureRate, node, outs[..n], draws[..n]), failureRate, node, outs[n], draws[n])
  }

  /** One list of draws per peer, one draw per queued output; every queued output is schedulable. */
  ghost predicate DrawsFit(peers: seq<Peer>, draws: seq<seq<Draws>>) {
    && |draws| == |peers|
    && forall i :: 0 <= i < |peers| ==>
         |draws[i]| == |peers[i].upstream| && QueueSchedulable(peers[i].addr.ip, peers[i].upstream)
  }

  /** The state after every peer's queue, in peer order, is drained. */
  ghost function DrainedAll(w: SimState, failureRate: real, peers: seq<Peer>, draws: seq<seq<Draws>>): SimState
    requires DrawsFit(peers, draws)
    decreases |peers|
  {
    if peers == [] then
      w
    else
      var n := |peers| - 1;
      Drained(DrainedAll(w, failureRate, peers[..n], draws[..n]), failureRate, peers[n].addr.ip, peers[n].upstream, draws[n])
  }

  /** The node identifiers of the peers, in order. */
  function Ips(peers: seq<Peer>): (ids: seq<NodeId>)
    ensures |ids| == |peers|
    ensures forall i :: 0 <= i < |peers| ==> ids[i] == peers[i].addr.ip
  {
    seq(|peers|, i requires 0 <= i < |peers| => peers[i].addr.ip)
  }

  /** Every peer has its own IP address: the simulator identifies a node by it. */
  predicate DistinctIps(peers: seq<Peer>) {
    forall i, j :: 0 <= i < j < |peers| ==> peers[i].addr.ip != peers[j].addr.ip
  }

  /** The entry about to be delivered is for one of the peers; the simulator panics otherwise. */
  ghost predicate NodeFound(w: SimState, peers: seq<Peer>) {
    Earliest(w.inbox).Some? ==> Earliest(w.inbox).value.1.node in Ips(peers)
  }

  /** The table after both directions between `from` and `to` are offered `l`, each kept if already set. */
  ghost function Offered(lat: LatencyTable, from: NodeId, to: NodeId, l: Duration): (r: LatencyTable)
  {
    var once := if (from, to) in lat then lat else lat[(from, to) := l];
    if (to, from) in once then once else once[(to, from) := l]
  }

  /** The table after pairs (ids[i], ids[k]), i < k < j, are offered their drawn base latency. */
  ghost function ConfiguredRow(lat: LatencyTable, range: Range, ids: seq<NodeId>, i: nat, j: nat, draw: (nat, nat) -> nat): LatencyTable
    requires !range.IsEmpty() && i < j <= |ids|
    decreases j
  {
    if j == i + 1 then
      lat
    else
      Offered(ConfiguredRow(lat, range, ids, i, j - 1, draw), ids[i], ids[j - 1], BaseLatency(range, draw(i, j - 1)))
  }

  /** The table after the first `n` rows of pairs are offered their drawn base latency. */
  ghost function Configured(lat: LatencyTable, range: Range, ids: seq<NodeId>, n: nat, draw: (nat, nat) -> nat): LatencyTable
    requires !range.IsEmpty() && n <= |ids|
  {
    if n == 0 then
      lat
    else
      ConfiguredRow(Configured(lat, range, ids, n - 1, draw), range, ids, n - 1, |ids|, draw)
  }

  /** Latencies configured, then every peer's queue drained: the state before delivery. */
  ghost function Prepared(w: SimState, opts: Options, peers: seq<Peer>, draw: (nat, nat) -> nat, draws: seq<seq<Draws>>): SimState
    requires DrawsFit(peers, draws)
  {
    var configured :=
      if opts.latency.IsEmpty() then w
      else w.(latencies := Configured(w.latencies, opts.latency, Ips(peers), |peers|, draw));
    DrainedAll(configured, opts.failureRate, peers, draws)
  }

  /** The delivered node's reaction has one draw per output, and each output is schedulable by it. */
  ghost predicate ReactionFits(w: SimState, reaction: seq<Out>, reactionDraws: seq<Draws>) {
    && |reactionDraws| == |reaction|
    && (Earliest(w.inbox).Some? ==> QueueSchedulable(Earliest(w.inbox).value.1.node, reaction))
  }

  /**
   * Delivery: the earliest entry is removed, the clock moves to its time and
   * the outputs its node produced in reaction are translated.
   */
  ghost function Delivered(w: SimState, failureRate: real, reaction: seq<Out>, reactionDraws: seq<Draws>): SimState
    requires ReactionFits(w, reaction, reactionDraws)
  {
    match Earliest(w.inbox)
    case None => w
    case Some((t, next)) =>
      Drained(w.(time := t, inbox := w.inbox - {t}), failureRate, next.node, reaction, reactionDraws)
  }

  ghost predicate StepFits(w: SimState, opts: Options, peers: seq<Peer>, draw: (nat, nat) -> nat, draws: seq<seq<Draws>>,
                          reaction: seq<Out>, reactionDraws: seq<Draws>) {
    DrawsFit(peers, draws) && ReactionFits(Prepared(w, opts, peers, draw, draws), reaction, reactionDraws)
  }

  /** The state after one step of the simulation. */
  ghost function StepSpec(w: SimState, opts: Options, peers: seq<Peer>, draw: (nat, nat) -> nat, draws: seq<seq<Draws>>,
                          reaction: seq<Out>, reactionDraws: seq<Draws>): SimState
    requires StepFits(w, opts, peers, draw, draws, reaction, reactionDraws)
  {
    Delivered(Prepared(w, opts, peers, draw, draws), opts.failureRate, reaction, reactionDraws)
  }
}
