/**
 * What translating one protocol output guarantees: what each kind of output
 * schedules and changes, that no scheduled entry is ever dropped, and that
 * the invariant (symmetric connection table without self-connections,
 * symmetric latencies, nothing scheduled in the past) is kept.
 */
module ScheduleProperties {
  import opened SimTypes
  import opened SimInbox
  import opened SimLatency
  import opened SimSchedule

  // ---------------------------------------------------------------------
  // The connection table
  // ---------------------------------------------------------------------

  /** Registering a connection in both directions keeps the connection table symmetric. */
  lemma ConnectKeepsSymmetry(c: ConnectionTable, node: NodeId, local: SocketAddr, remote: SocketAddr)
    requires ConnectionsSymmetric(c)
    requires local.ip == node && remote.ip != node
    ensures ConnectionsSymmetric(c[(node, remote.ip) := (local, remote)][(remote.ip, node) := (remote, local)])
  {
    var r := c[(node, remote.ip) := (local, remote)][(remote.ip, node) := (remote, local)];
    forall a, b | (a, b) in r
      ensures a != b && r[(a, b)].0.ip == a && r[(a, b)].1.ip == b
      ensures (b, a) in r && r[(b, a)] == (r[(a, b)].1, r[(a, b)].0)
    {
      if (a, b) != (node, remote.ip) && (a, b) != (remote.ip, node) {
        assert (a, b) in c;
      }
    }
  }

  /** Removing a connection in both directions keeps the connection table symmetric. */
  lemma DisconnectKeepsSymmetry(c: ConnectionTable, x: NodeId, y: NodeId)
    requires ConnectionsSymmetric(c)
    ensures ConnectionsSymmetric(c - {(x, y), (y, x)})
  {
    var r := c - {(x, y), (y, x)};
    forall a, b | (a, b) in r
      ensures (b, a) in r
    {
      assert (a, b) in c;
    }
  }

  // ---------------------------------------------------------------------
  // What each translation unfolds to; the lemmas below rely on these so
  // that none of them has to unfold a translation in a large context.
  // ---------------------------------------------------------------------

  /** A successful connect: the connection registered both ways and three insertions. */
  lemma ConnectedShape(w: SimState, failureRate: real, node: NodeId, remote: PeerId, draws: Draws)
    requires !IsFallible(draws.fault, failureRate)
    ensures var r := ScheduleConnect(w, failureRate, node, remote, draws);
            var local := SocketAddr(node, draws.port);
            var latency := Latency(w.latencies, node, remote.ip, draws.jitter);
            && r.connections == w.connections[(node, remote.ip) := (local, remote)][(remote.ip, node) := (remote, local)]
            && r.latencies == w.latencies && r.time == w.time
            && r.inbox == Inserted(Inserted(Inserted(w.inbox, w.time + MIN_LATENCY, Scheduled(node, remote, Connecting(remote))),
                                            w.time + latency, Scheduled(remote.ip, local, Connected(local, remote, Inbound))),
                                   w.time + latency, Scheduled(node, remote, Connected(remote, local, Outbound)))
  {
  }

  /** A failed connect: no connection, `Connecting` and possibly the failure announced. */
  lemma ConnectFailedShape(w: SimState, failureRate: real, node: NodeId, remote: PeerId, draws: Draws)
    requires IsFallible(draws.fault, failureRate)
    ensures var r := ScheduleConnect(w, failureRate, node, remote, draws);
            var announced := Inserted(w.inbox, w.time + MIN_LATENCY, Scheduled(node, remote, Connecting(remote)));
            var failed := Scheduled(node, remote, Disconnected(remote, ConnectionError(CONNECT_FAILED)));
            && r.connections == w.connections && r.latencies == w.latencies && r.time == w.time
            && r.inbox == (if draws.reportFailure then Inserted(announced, w.time + MIN_LATENCY, failed) else announced)
  {
  }

  /** Closing an open connection: both directions removed and two insertions. */
  lemma DisconnectedShape(w: SimState, node: NodeId, remote: PeerId, reason: DisconnectReason, draws: Draws)
    requires (node, remote.ip) in w.connections
    ensures var r := ScheduleDisconnect(w, node, remote, reason, draws);
            var local := w.connections[(node, remote.ip)].0;
            var latency := Latency(w.latencies, node, remote.ip, draws.jitter);
            && r.connections == w.connections - {(node, remote.ip), (remote.ip, node)}
            && r.latencies == w.latencies && r.time == w.time
            && r.inbox == Inserted(Inserted(w.inbox, w.time, Scheduled(node, remote, Disconnected(remote, reason))),
                                   w.time + latency, Scheduled(remote.ip, local, Disconnected(local, ConnectionError(REMOTE_CLOSED))))
  {
  }

  // ---------------------------------------------------------------------
  // Out::Message
  // ---------------------------------------------------------------------

  /** A message to a peer with no connection-table entry is dropped: nothing changes. */
  lemma MessageWithoutConnectionIsDropped(w: SimState, failureRate: real, node: NodeId, receiver: PeerId, msg: NetworkMessage, draws: Draws)
    requires (node, receiver.ip) !in w.connections
    ensures ScheduleMessage(w, failureRate, node, receiver, msg, draws) == w
  {
  }

  /**
   * A message over an open connection that does not fail is received by the
   * remote node, from the local endpoint of the connection, in a new slot no
   * earlier than the current time plus the jittered latency; nothing else
   * changes.
   */
  lemma MessageIsReceived(w: SimState, failureRate: real, node: NodeId, receiver: PeerId, msg: NetworkMessage, draws: Draws)
    returns (s: Time)
    requires (node, receiver.ip) in w.connections && !IsFallible(draws.fault, failureRate)
    ensures var r := ScheduleMessage(w, failureRate, node, receiver, msg, draws);
            var sender := w.connections[(node, receiver.ip)].0;
            var latency := Latency(w.latencies, node, receiver.ip, draws.jitter);
            && r.connections == w.connections && r.latencies == w.latencies && r.time == w.time
            && Extends(w.inbox, r.inbox) && |r.inbox| == |w.inbox| + 1
            && w.time + latency <= s && NewAt(w.inbox, r.inbox, s, Scheduled(receiver.ip, sender, Received(sender, msg)))
  {
    var latency := Latency(w.latencies, node, receiver.ip, draws.jitter);
    var sender := w.connections[(node, receiver.ip)].0;
    var received := Scheduled(receiver.ip, sender, Received(sender, msg));
    var r := ScheduleMessage(w, failureRate, node, receiver, msg, draws);
    assert r == w.(inbox := Inserted(w.inbox, w.time + latency, received));
    InsertedExtends(w.inbox, w.time + latency, received);
    InsertedGrows(w.inbox, w.time + latency, received);
    s := FreeSlot(w.inbox, w.time + latency);
  }

  /**
   * A message that fails to send is never received: it has exactly the
   * effect of disconnecting from the receiver with an I/O error, so the
   * connection is closed in both directions (`DisconnectCloses`) and both
   * ends are told (`DisconnectNotifies`).
   */
  lemma MessageFailureDisconnects(w: SimState, failureRate: real, node: NodeId, receiver: PeerId, msg: NetworkMessage, draws: Draws)
    requires (node, receiver.ip) in w.connections && IsFallible(draws.fault, failureRate)
    ensures var r := ScheduleMessage(w, failureRate, node, receiver, msg, draws);
            && r == ScheduleDisconnect(w, node, receiver, ConnectionError(IO_ERROR), draws)
            && r.connections == w.connections - {(node, receiver.ip), (receiver.ip, node)}
  {
    DisconnectCloses(w, node, receiver, ConnectionError(IO_ERROR), draws);
  }

  /** Translating a message keeps the invariant, the clock and the latencies, and drops no entry. */
  lemma MessageKeepsInv(w: SimState, failureRate: real, node: NodeId, receiver: PeerId, msg: NetworkMessage, draws: Draws)
    requires Inv(w)
    ensures var r := ScheduleMessage(w, failureRate, node, receiver, msg, draws);
            Inv(r) && r.time == w.time && r.latencies == w.latencies && Extends(w.inbox, r.inbox)
  {
    if (node, receiver.ip) in w.connections {
      if IsFallible(draws.fault, failureRate) {
        DisconnectKeepsInv(w, node, receiver, ConnectionError(IO_ERROR), draws);
      } else {
        var sender := w.connections[(node, receiver.ip)].0;
        var latency := Latency(w.latencies, node, receiver.ip, draws.jitter);
        var received := Scheduled(receiver.ip, sender, Received(sender, msg));
        InsertedExtends(w.inbox, w.time + latency, received);
        InsertedKeepsPast(w.inbox, w.time, w.time + latency, received);
      }
    }
  }

  // ---------------------------------------------------------------------
  // Out::Connect
  // ---------------------------------------------------------------------

  /**
   * A successful connect registers the connection in both directions, with
   * swapped endpoints and the initiator's new ephemeral endpoint, and leaves
   * every other connection as it was.
   */
  lemma ConnectSucceeds(w: SimState, failureRate: real, node: NodeId, remote: PeerId, draws: Draws)
    requires remote.ip != node && !IsFallible(draws.fault, failureRate)
    ensures var r := ScheduleConnect(w, failureRate, node, remote, draws);
            var local := SocketAddr(node, draws.port);
            && r.connections[(node, remote.ip)] == (local, remote)
            && r.connections[(remote.ip, node)] == (remote, local)
            && r.connections.Keys == w.connections.Keys + {(node, remote.ip), (remote.ip, node)}
            && forall k :: k in w.connections && k != (node, remote.ip) && k != (remote.ip, node) ==>
                 r.connections[k] == w.connections[k]
  {
    ConnectedShape(w, failureRate, node, remote, draws);
  }

  /**
   * A successful connect adds three entries to the inbox, dropping none; the
   * first announces `Connecting` to the initiator no earlier than one
   * `MIN_LATENCY` from now.
   */
  lemma ConnectAnnounces(w: SimState, failureRate: real, node: NodeId, remote: PeerId, draws: Draws) returns (c: Time)
    requires remote.ip != node && !IsFallible(draws.fault, failureRate)
    ensures var r := ScheduleConnect(w, failureRate, node, remote, draws);
            && Extends(w.inbox, r.inbox) && |r.inbox| == |w.inbox| + 3
            && w.time + MIN_LATENCY <= c && NewAt(w.inbox, r.inbox, c, Scheduled(node, remote, Connecting(remote)))
  {
    var local := SocketAddr(node, draws.port);
    var latency := Latency(w.latencies, node, remote.ip, draws.jitter);
    var connecting := Scheduled(node, remote, Connecting(remote));
    var inbound := Scheduled(remote.ip, local, Connected(local, remote, Inbound));
    var outbound := Scheduled(node, remote, Connected(remote, local, Outbound));
    var i, o;
    c, i, o := ThreeInsertions(w.inbox, ScheduleConnect(w, failureRate, node, remote, draws).inbox, w.time + MIN_LATENCY, w.time + latency, connecting, inbound, outbound);
  }

  /**
   * A successful connect schedules `Connected` at the remote (inbound, from
   * the initiator's new ephemeral endpoint) strictly before `Connected` at
   * the initiator (outbound), both in new slots no earlier than the current
   * time plus the jittered latency.
   */
  lemma ConnectHandshake(w: SimState, failureRate: real, node: NodeId, remote: PeerId, draws: Draws)
    returns (i: Time, o: Time)
    requires remote.ip != node && !IsFallible(draws.fault, failureRate)
    ensures var r := ScheduleConnect(w, failureRate, node, remote, draws);
            var local := SocketAddr(node, draws.port);
            var latency := Latency(w.latencies, node, remote.ip, draws.jitter);
            && i < o
            && w.time + latency <= i && NewAt(w.inbox, r.inbox, i, Scheduled(remote.ip, local, Connected(local, remote, Inbound)))
            && w.time + latency <= o && NewAt(w.inbox, r.inbox, o, Scheduled(node, remote, Connected(remote, local, Outbound)))
  {
    var local := SocketAddr(node, draws.port);
    var latency := Latency(w.latencies, node, remote.ip, draws.jitter);
    var connecting := Scheduled(node, remote, Connecting(remote));
    var inbound := Scheduled(remote.ip, local, Connected(local, remote, Inbound));
    var outbound := Scheduled(node, remote, Connected(remote, local, Outbound));
    ConnectedShape(w, failureRate, node, remote, draws);
    var c;
    c, i, o := ThreeInsertions(w.inbox, ScheduleConnect(w, failureRate, node, remote, draws).inbox, w.time + MIN_LATENCY, w.time + latency, connecting, inbound, outbound);
  }

  /**
   * A failed connect registers no connection. `Connecting` is still
   * announced; when the failure is reported, `Disconnected` follows strictly
   * after it, otherwise the attempt hangs and nothing else is scheduled.
   */
  lemma ConnectFails(w: SimState, failureRate: real, node: NodeId, remote: PeerId, draws: Draws)
    returns (c: Time, f: Time)
    requires remote.ip != node && IsFallible(draws.fault, failureRate)
    ensures var r := ScheduleConnect(w, failureRate, node, remote, draws);
            var connecting := Scheduled(node, remote, Connecting(remote));
            var failed := Scheduled(node, remote, Disconnected(remote, ConnectionError(CONNECT_FAILED)));
            && r.connections == w.connections
            && Extends(w.inbox, r.inbox)
            && |r.inbox| == |w.inbox| + (if draws.reportFailure then 2 else 1)
            && w.time + MIN_LATENCY <= c && NewAt(w.inbox, r.inbox, c, connecting)
            && (draws.reportFailure ==> c < f && NewAt(w.inbox, r.inbox, f, failed))
  {
    var connecting := Scheduled(node, remote, Connecting(remote));
    var failed := Scheduled(node, remote, Disconnected(remote, ConnectionError(CONNECT_FAILED)));
    ConnectFailedShape(w, failureRate, node, remote, draws);
    if draws.reportFailure {
      c, f := TwoInsertions(w.inbox, ScheduleConnect(w, failureRate, node, remote, draws).inbox, w.time + MIN_LATENCY, connecting, w.time + MIN_LATENCY, failed);
    } else {
      InsertedExtends(w.inbox, w.time + MIN_LATENCY, connecting);
      InsertedGrows(w.inbox, w.time + MIN_LATENCY, connecting);
      c := FreeSlot(w.inbox, w.time + MIN_LATENCY);
      f := c;
    }
  }

  /** A failed connect keeps the invariant and drops no entry. */
  lemma ConnectFailureKeepsInv(w: SimState, failureRate: real, node: NodeId, remote: PeerId, draws: Draws)
    requires Inv(w) && IsFallible(draws.fault, failureRate)
    ensures var r := ScheduleConnect(w, failureRate, node, remote, draws);
            Inv(r) && Extends(w.inbox, r.inbox)
  {
    ConnectFailedShape(w, failureRate, node, remote, draws);
    var connecting := Scheduled(node, remote, Connecting(remote));
    var m1 := Inserted(w.inbox, w.time + MIN_LATENCY, connecting);
    InsertedExtends(w.inbox, w.time + MIN_LATENCY, connecting);
    InsertedKeepsPast(w.inbox, w.time, w.time + MIN_LATENCY, connecting);
    if draws.reportFailure {
      var failed := Scheduled(node, remote, Disconnected(remote, ConnectionError(CONNECT_FAILED)));
      var m2 := Inserted(m1, w.time + MIN_LATENCY, failed);
      InsertedExtends(m1, w.time + MIN_LATENCY, failed);
      InsertedKeepsPast(m1, w.time, w.time + MIN_LATENCY, failed);
      ExtendsTransitive(w.inbox, m1, m2);
    }
  }

  /** A successful connect keeps the invariant and drops no entry. */
  lemma ConnectSuccessKeepsInv(w: SimState, failureRate: real, node: NodeId, remote: PeerId, draws: Draws)
    requires Inv(w) && remote.ip != node && !IsFallible(draws.fault, failureRate)
    ensures var r := ScheduleConnect(w, failureRate, node, remote, draws);
            Inv(r) && Extends(w.inbox, r.inbox)
  {
    var local := SocketAddr(node, draws.port);
    var latency := Latency(w.latencies, node, remote.ip, draws.jitter);
    var connecting := Scheduled(node, remote, Connecting(remote));
    var inbound := Scheduled(remote.ip, local, Connected(local, remote, Inbound));
    var outbound := Scheduled(node, remote, Connected(remote, local, Outbound));
    var c := w.connections[(node, remote.ip) := (local, remote)][(remote.ip, node) := (remote, local)];
    var m3 := Inserted(Inserted(Inserted(w.inbox, w.time + MIN_LATENCY, connecting), w.time + latency, inbound),
                       w.time + latency, outbound);
    ConnectedShape(w, failureRate, node, remote, draws);
    ThreeInsertionsKeepPast(w.inbox, ScheduleConnect(w, failureRate, node, remote, draws).inbox, w.time, w.time + MIN_LATENCY, w.time + latency, connecting, inbound, outbound);
    ConnectKeepsSymmetry(w.connections, node, local, remote);
  }

  /** Translating a connect keeps the invariant, the clock and the latencies, and drops no entry. */
  lemma ConnectKeepsInv(w: SimState, failureRate: real, node: NodeId, remote: PeerId, draws: Draws)
    requires Inv(w) && remote.ip != node
    ensures var r := ScheduleConnect(w, failureRate, node, remote, draws);
            Inv(r) && r.time == w.time && r.latencies == w.latencies && Extends(w.inbox, r.inbox)
  {
    if IsFallible(draws.fault, failureRate) {
      ConnectFailureKeepsInv(w, failureRate, node, remote, draws);
    } else {
      ConnectSuccessKeepsInv(w, failureRate, node, remote, draws);
    }
  }

  // ---------------------------------------------------------------------
  // Out::Disconnect
  // ---------------------------------------------------------------------

  /** A disconnect from a peer with no connection-table entry changes nothing. */
  lemma DisconnectWithoutConnectionIsNoOp(w: SimState, node: NodeId, remote: PeerId, reason: DisconnectReason, draws: Draws)
    requires (node, remote.ip) !in w.connections
    ensures ScheduleDisconnect(w, node, remote, reason, draws) == w
  {
  }

  /**
   * Disconnecting an open connection removes both directions from the
   * connection table and leaves every other connection.
   */
  lemma DisconnectCloses(w: SimState, node: NodeId, remote: PeerId, reason: DisconnectReason, draws: Draws)
    requires (node, remote.ip) in w.connections
    ensures var r := ScheduleDisconnect(w, node, remote, reason, draws);
            && r.connections == w.connections - {(node, remote.ip), (remote.ip, node)}
            && (node, remote.ip) !in r.connections && (remote.ip, node) !in r.connections
  {
    DisconnectedShape(w, node, remote, reason, draws);
  }

  /**
   * Disconnecting an open connection adds two entries to the inbox, dropping
   * none, and tells both ends, in two distinct new slots: the initiator with
   * the given reason no earlier than now, and the remote node, about the
   * local endpoint, that the remote end closed the connection, no earlier
   * than now plus the jittered latency.
   */
  lemma DisconnectNotifies(w: SimState, node: NodeId, remote: PeerId, reason: DisconnectReason, draws: Draws)
    returns (h: Time, t: Time)
    requires (node, remote.ip) in w.connections
    ensures var r := ScheduleDisconnect(w, node, remote, reason, draws);
            var local := w.connections[(node, remote.ip)].0;
            var latency := Latency(w.latencies, node, remote.ip, draws.jitter);
            && Extends(w.inbox, r.inbox) && |r.inbox| == |w.inbox| + 2
            && h != t
            && w.time <= h && NewAt(w.inbox, r.inbox, h, Scheduled(node, remote, Disconnected(remote, reason)))
            && w.time + latency <= t
            && NewAt(w.inbox, r.inbox, t, Scheduled(remote.ip, local, Disconnected(local, ConnectionError(REMOTE_CLOSED))))
  {
    var local := w.connections[(node, remote.ip)].0;
    var latency := Latency(w.latencies, node, remote.ip, draws.jitter);
    var here := Scheduled(node, remote, Disconnected(remote, reason));
    var there := Scheduled(remote.ip, local, Disconnected(local, ConnectionError(REMOTE_CLOSED)));
    h, t := TwoInsertions(w.inbox, ScheduleDisconnect(w, node, remote, reason, draws).inbox, w.time, here, w.time + latency, there);
  }

  /** Translating a disconnect keeps the invariant, the clock and the latencies, and drops no entry. */
  lemma DisconnectKeepsInv(w: SimState, node: NodeId, remote: PeerId, reason: DisconnectReason, draws: Draws)
    requires Inv(w)
    ensures var r := ScheduleDisconnect(w, node, remote, reason, draws);
            Inv(r) && r.time == w.time && r.latencies == w.latencies && Extends(w.inbox, r.inbox)
  {
    if (node, remote.ip) in w.connections {
      DisconnectedShape(w, node, remote, reason, draws);
      var local := w.connections[(node, remote.ip)].0;
      var latency := Latency(w.latencies, node, remote.ip, draws.jitter);
      var here := Scheduled(node, remote, Disconnected(remote, reason));
      var there := Scheduled(remote.ip, local, Disconnected(local, ConnectionError(REMOTE_CLOSED)));
      var m1 := Inserted(w.inbox, w.time, here);
      var m2 := Inserted(m1, w.time + latency, there);
      InsertedExtends(w.inbox, w.time, here);
      InsertedExtends(m1, w.time + latency, there);
      InsertedKeepsPast(w.inbox, w.time, w.time, here);
      InsertedKeepsPast(m1, w.time, w.time + latency, there);
      ExtendsTransitive(w.inbox, m1, m2);
      DisconnectKeepsSymmetry(w.connections, node, remote.ip);
    }
  }

  // ---------------------------------------------------------------------
  // Out::SetTimeout, Out::Event and the whole translation
  // ---------------------------------------------------------------------

  /** A timeout schedules one `Tick` for the node itself, no earlier than now plus the duration. */
  lemma SetTimeoutTicks(w: SimState, node: NodeId, duration: Duration) returns (s: Time)
    ensures var r := ScheduleTimeout(w, node, duration);
            && r.connections == w.connections && r.latencies == w.latencies && r.time == w.time
            && Extends(w.inbox, r.inbox) && |r.inbox| == |w.inbox| + 1
            && w.time + duration <= s && NewAt(w.inbox, r.inbox, s, Scheduled(node, UNSPECIFIED, Tick))
  {
    InsertedExtends(w.inbox, w.time + duration, Scheduled(node, UNSPECIFIED, Tick));
    InsertedGrows(w.inbox, w.time + duration, Scheduled(node, UNSPECIFIED, Tick));
    s := FreeSlot(w.inbox, w.time + duration);
  }

  /** Events are never scheduled. */
  lemma EventIsIgnored(w: SimState, failureRate: real, node: NodeId, description: string, draws: Draws)
    ensures Translate(w, failureRate, node, Event(description), draws) == w
  {
  }

  /**
   * Translating any schedulable output keeps the invariant, never changes
   * the clock or the latency table, and never drops or alters a scheduled
   * entry.
   */
  lemma TranslateKeepsInv(w: SimState, failureRate: real, node: NodeId, out: Out, draws: Draws)
    requires Inv(w) && Schedulable(node, out)
    ensures var r := Translate(w, failureRate, node, out, draws);
            && Inv(r)
            && r.time == w.time
            && r.latencies == w.latencies
            && Extends(w.inbox, r.inbox)
  {
    match out
    case Message(receiver, msg) =>
      MessageKeepsInv(w, failureRate, node, receiver, msg, draws);
    case Connect(remote, _) =>
      ConnectKeepsInv(w, failureRate, node, remote, draws);
    case Disconnect(remote, reason) =>
      DisconnectKeepsInv(w, node, remote, reason, draws);
    case SetTimeout(duration) =>
      InsertedExtends(w.inbox, w.time + duration, Scheduled(node, UNSPECIFIED, Tick));
      InsertedKeepsPast(w.inbox, w.time, w.time + duration, Scheduled(node, UNSPECIFIED, Tick));
    case Event(_) =>
  }

  /**
   * The failure-rate boundaries: with rate zero a message over an open
   * connection is always delivered and a connect always succeeds; with rate
   * one a message always closes the connection and a connect never
   * registers one.
   */
  lemma FailureRateBoundaries(w: SimState, node: NodeId, remote: PeerId, msg: NetworkMessage, draws: Draws)
    requires remote.ip != node
    ensures (node, remote.ip) in w.connections ==>
              (ScheduleMessage(w, 0.0, node, remote, msg, draws).connections == w.connections)
    ensures (node, remote.ip) in w.connections ==>
              (ScheduleMessage(w, 1.0, node, remote, msg, draws).connections
               == w.connections - {(node, remote.ip), (remote.ip, node)})
    ensures (var local := SocketAddr(node, draws.port);
             ScheduleConnect(w, 0.0, node, remote, draws).connections
             == w.connections[(node, remote.ip) := (local, remote)][(remote.ip, node) := (remote, local)])
    ensures ScheduleConnect(w, 1.0, node, remote, draws).connections == w.connections
  {
  }
}
