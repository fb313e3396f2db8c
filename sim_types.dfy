/**
 * The vocabulary shared by the simulator: virtual time, node and socket
 * addresses, the protocol's inputs and outputs, the scheduled entries of the
 * inbox and the simulation options.
 */
module SimTypes {

  /** Virtual time and durations, in milliseconds. */
  type Time = nat
  type Duration = nat

  /** The minimum latency between two peers: one millisecond. */
  const MIN_LATENCY: Duration := 1

  datatype Option<+T> = None | Some(value: T)

  /** The numeric value of an IPv4 and of an IPv6 address. */
  type Ipv4 = n: nat | n < 0x1_0000_0000
  type Ipv6 = n: nat | n < 0x1_0000_0000_0000_0000_0000_0000_0000_0000

  /** An IP address of either family; a simulated node is identified by its IP address. */
  datatype IpAddr = V4(v4: Ipv4) | V6(v6: Ipv6)

  type NodeId = IpAddr

  /** A TCP port number. */
  type Port = p: nat | p < 0x1_0000

  /** The local port a connecting node draws for a new connection: `8192..=65535`. */
  type EphemeralPort = p: Port | 8192 <= p witness 8192

  /** A socket address (IP address and port): one end of a connection, the source's `PeerId`. */
  datatype SocketAddr = SocketAddr(ip: IpAddr, port: Port)

  type PeerId = SocketAddr

  /** The zero address `0.0.0.0:0`, the remote of inputs that originate at the node itself. */
  const UNSPECIFIED: SocketAddr := SocketAddr(V4(0), 0)

  /** The direction in which a connection was established. */
  datatype Link = Inbound | Outbound

  /**
   * Why a connection was closed. The simulator itself only produces
   * `ConnectionError`; any other reason the protocol gives is passed through.
   */
  datatype DisconnectReason = ConnectionError(message: string) | ProtocolReason(description: string)

  /** The messages of the connection errors the simulator itself raises. */
  const IO_ERROR: string := "unexpected I/O error"
  const CONNECT_FAILED: string := "failed to connect"
  const REMOTE_CLOSED: string := "remote end closed the connection"

  type Byte = b: nat | b < 0x100

  /** A wire message; the simulator never looks inside it. */
  datatype NetworkMessage = NetworkMessage(command: string, payload: seq<Byte>)

  /** The inputs a protocol instance reacts to. */
  datatype Input =
    | Connecting(addr: PeerId)
    | Connected(addr: PeerId, localAddr: SocketAddr, link: Link)
    | Received(addr: PeerId, msg: NetworkMessage)
    | Sent(addr: PeerId, msg: NetworkMessage)
    | Disconnected(addr: PeerId, reason: DisconnectReason)
    | Tick

  /** The outputs (effects) a protocol instance asks its environment to perform. */
  datatype Out =
    | Message(receiver: PeerId, msg: NetworkMessage)
    | Connect(remote: PeerId, timeout: Duration)
    | Disconnect(remote: PeerId, reason: DisconnectReason)
    | SetTimeout(duration: Duration)
    | Event(description: string)
    | Shutdown

  /** An input scheduled for delivery to `node`, attributed to the peer `remote`. */
  datatype Scheduled = Scheduled(node: NodeId, remote: PeerId, input: Input)

  /** A half-open range `start..end`; it is empty when `end <= start`. */
  datatype Range = Range(start: nat, end: nat) {
    predicate IsEmpty() {
      end <= start
    }
  }

  /** A sample of `rng.f64()`: a real number in `[0, 1)`. */
  type Unit = r: real | 0.0 <= r < 1.0

  /**
   * Simulation options: the range of base latencies between nodes, in
   * seconds, and the probability that a network operation fails.
   */
  datatype Options = Options(latency: Range, failureRate: real)

  /** The default options: no latency range and no failures. */
  const DEFAULT_OPTIONS: Options := Options(Range(0, 0), 0.0)

  /**
   * A peer handed to the simulator: its address, and the outputs its protocol
   * instance has queued and the simulator has not yet drained.
   */
  datatype Peer = Peer(addr: SocketAddr, upstream: seq<Out>)
}
