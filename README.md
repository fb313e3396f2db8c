# Deterministic P2P network simulator: a verified model

This project models the discrete-event network simulator that nakamoto's
peer-to-peer protocol tests use in place of a reactor
(`p2p/src/protocol/tests/simulator.rs`). The simulator performs no I/O. It keeps
an **inbox** of protocol inputs keyed by delivery time, holding at most one
input per millisecond. It also keeps a table of base **latencies** between
nodes, a table of open **connections**, and a virtual **clock**.

- `schedule` turns each output of a node's protocol into inbox insertions.
- `step` configures latencies between the peers, drains the peers' output
  queues, and then delivers the earliest input. Delivery moves the clock to
  that input's time and schedules the delivered node's reaction.

Modules:

- `SimTypes` (`sim_types.dfy`): times and durations in milliseconds,
  `MIN_LATENCY` = 1 ms, IP and socket addresses, the protocol's `Input` and
  `Out`, `Scheduled`, `Options` with its default, and the error messages the
  simulator raises.
- `SimInbox` (`sim_inbox.dfy`): the `Inbox` class. `Insert` is a loop that
  probes forward for a free slot. `Next` peeks at the earliest entry. The
  value-level `FreeSlot`, `Inserted` and `Earliest` specify them, and lemmas
  state that an insertion never overwrites an entry and that colliding
  insertions keep their FIFO order.
- `SimLatency` (`sim_latency.dfy`): the jittered `latency`, the sampled base
  latencies and the failure coin. Every random draw is an argument.
- `SimSchedule` (`sim_schedule.dfy`): the simulation state as a value
  (`SimState`), and the invariant `Inv`. The invariant says three things:
  - the connection table is symmetric with swapped endpoints and has no
    self-connections;
  - the latency table is symmetric;
  - nothing is scheduled before the current time.

  This module also specifies translating one output (`Translate`), draining
  the queues, configuring the latencies, and one full step (`StepSpec`).
- `ScheduleProperties` and `StepProperties` (`sim_schedule_props.dfy`,
  `sim_step_props.dfy`): what each output schedules, that nothing is ever
  dropped, and that every operation keeps `Inv`.
- `Simulator` (`simulation.dfy`): the `Simulation` class, with its inbox,
  tables, options, start time and clock. `Schedule`, `Step` and their loops
  are methods proved against the value-level specification. `IsDone`,
  `Elapsed` and `IsSettled` are functions.

The source checks at run time that time only moves forwards
(`simulator.rs:258`). In the model this is an `assert` in `Step`, proved from
the invariant that nothing is scheduled in the past.

Two notes on the jittered latency:

- **Reachable range.** The source's comment says the jittered latency lies
  "between half, and two times the base latency". The code draws
  `millis + u128(0..millis)` or `millis - u128(0..millis / 2)`, and both
  ranges exclude their upper end. So the result for a base `l > 1` lies in
  `(l - l/2, 2l - 1]`. The model follows the code: `Latency` proves those
  bounds, and `LatencyCoversRange` proves that every value in them is
  reachable.
- **Latency below the minimum.** The 1 ms minimum applies only to pairs
  without a base latency. A base latency of 0 (possible when the configured
  range starts at 0) is returned unchanged, as the code does.

## Model

| member | source | states |
|---|---|---|
| SimInbox.FreeSlot | p2p/src/protocol/tests/simulator.rs:92-98 | the slot an insertion lands in is free and no earlier than the requested time |
| SimInbox.FreeSlotIsFirst | p2p/src/protocol/tests/simulator.rs:94-96 | every time from the requested one up to the slot is occupied: the slot is the smallest free `t + k * MIN_LATENCY` |
| SimInbox.InsertNeverOverwrites | p2p/src/protocol/tests/simulator.rs:92-98 | an insertion adds exactly the one new slot, holding the new entry; every earlier entry keeps its time and value |
| SimInbox.InsertedGrows | p2p/src/protocol/tests/simulator.rs:92-98 | an insertion grows the inbox by exactly one entry |
| SimInbox.InsertOrder | p2p/src/protocol/tests/simulator.rs:94-97 | of two insertions at the same requested time, the first lands strictly earlier |
| SimInbox.CollidingInsertionsKeep | p2p/src/protocol/tests/simulator.rs:92-98 | N insertions at one requested time grow the inbox by N and keep every earlier entry |
| SimInbox.CollidingInsertionsPlaced | p2p/src/protocol/tests/simulator.rs:92-98 | each of N colliding insertions lands in a slot at or after the request that was free before, and stays there |
| SimInbox.CollidingInsertionsOrdered | p2p/src/protocol/tests/simulator.rs:94-97 | N colliding insertions take strictly increasing slots in insertion order (FIFO delivery) |
| SimInbox.TwoInsertions | p2p/src/protocol/tests/simulator.rs:92-98 | two insertions land in distinct new slots at or after their requests, in order when requested at the same time, dropping nothing |
| SimInbox.ThreeInsertions | p2p/src/protocol/tests/simulator.rs:92-98 | one insertion followed by two colliding ones: three new slots, the colliding pair in insertion order, nothing dropped |
| SimInbox.Earliest | p2p/src/protocol/tests/simulator.rs:101-106 | none exactly when the inbox is empty; otherwise an entry of the inbox whose time is the minimum |
| SimInbox.Inbox.constructor | p2p/src/protocol/tests/simulator.rs:150-152 | a new inbox is empty |
| SimInbox.Inbox.Insert | p2p/src/protocol/tests/simulator.rs:92-98 | the probing loop leaves the inbox equal to the specified insertion into the first free slot |
| SimInbox.Inbox.Next | p2p/src/protocol/tests/simulator.rs:101-106 | peeks without change: none iff empty, otherwise a stored entry with the minimum time |
| SimLatency.Sample | p2p/src/protocol/tests/simulator.rs:232-236 | a draw from `lo..hi` lies in `[lo, hi)` |
| SimLatency.SampleCovers | p2p/src/protocol/tests/simulator.rs:232-236 | every value of `lo..hi` is the outcome of some draw |
| SimLatency.Latency | p2p/src/protocol/tests/simulator.rs:185-207 | `MIN_LATENCY` when the pair has no base latency; the base itself when it is at most `MIN_LATENCY`; otherwise strictly above `l - l/2` and at most `2l - 1` |
| SimLatency.LatencyCoversRange | p2p/src/protocol/tests/simulator.rs:193-203 | every value in `(l - l/2, 2l - 1]` is the jittered latency for some draw |
| SimLatency.BaseLatency | p2p/src/protocol/tests/simulator.rs:232-236 | a drawn base latency lies in the configured range, converted from seconds to milliseconds |
| SimLatency.IsFallible | p2p/src/protocol/tests/simulator.rs:442-444 | a failure rate of zero never fails and a rate of one always fails |
| ScheduleProperties.ConnectKeepsSymmetry | p2p/src/protocol/tests/simulator.rs:355-358 | registering a connection in both directions with swapped endpoints keeps the connection table symmetric |
| ScheduleProperties.DisconnectKeepsSymmetry | p2p/src/protocol/tests/simulator.rs:391-392 | removing both directions keeps the connection table symmetric |
| ScheduleProperties.MessageWithoutConnectionIsDropped | p2p/src/protocol/tests/simulator.rs:285-288 | a message to a peer with no connection changes nothing |
| ScheduleProperties.MessageIsReceived | p2p/src/protocol/tests/simulator.rs:303-316 | a message that does not fail is received by the remote, from the connection's local endpoint, in a new slot no earlier than now plus the latency; only the inbox changes, by one entry |
| ScheduleProperties.MessageFailureDisconnects | p2p/src/protocol/tests/simulator.rs:289-301 | a failed message has exactly the effect of a disconnect with an I/O error, closing the connection both ways |
| ScheduleProperties.MessageKeepsInv | p2p/src/protocol/tests/simulator.rs:285-317 | a message keeps the invariant, the clock and the latencies, and drops no entry |
| ScheduleProperties.ConnectSucceeds | p2p/src/protocol/tests/simulator.rs:355-358 | a successful connect registers both directions with swapped endpoints and the new ephemeral endpoint, leaving every other connection |
| ScheduleProperties.ConnectAnnounces | p2p/src/protocol/tests/simulator.rs:318-332 | a successful connect adds three entries, dropping none; `Connecting` reaches the initiator no earlier than one `MIN_LATENCY` from now |
| ScheduleProperties.ConnectHandshake | p2p/src/protocol/tests/simulator.rs:360-385 | `Connected` (inbound) reaches the remote strictly before `Connected` (outbound) reaches the initiator, both no earlier than now plus the latency |
| ScheduleProperties.ConnectFails | p2p/src/protocol/tests/simulator.rs:318-352 | a failed connect registers nothing and announces `Connecting`; a reported failure adds `Disconnected` after it, otherwise the attempt hangs |
| ScheduleProperties.ConnectFailureKeepsInv | p2p/src/protocol/tests/simulator.rs:318-352 | a failed connect keeps the invariant and drops no entry |
| ScheduleProperties.ConnectSuccessKeepsInv | p2p/src/protocol/tests/simulator.rs:318-386 | a successful connect keeps the invariant and drops no entry |
| ScheduleProperties.ConnectKeepsInv | p2p/src/protocol/tests/simulator.rs:318-386 | any connect to another node keeps the invariant, the clock and the latencies, and drops no entry |
| ScheduleProperties.DisconnectWithoutConnectionIsNoOp | p2p/src/protocol/tests/simulator.rs:387-391 | a disconnect from a peer with no connection changes nothing |
| ScheduleProperties.DisconnectCloses | p2p/src/protocol/tests/simulator.rs:391-392 | a disconnect removes both directions from the connection table and keeps every other connection |
| ScheduleProperties.DisconnectNotifies | p2p/src/protocol/tests/simulator.rs:394-419 | two entries are added, none dropped, and both ends are told in distinct new slots: the initiator no earlier than now, with its reason; the remote no earlier than now plus the latency, that the remote end closed |
| ScheduleProperties.DisconnectKeepsInv | p2p/src/protocol/tests/simulator.rs:387-420 | a disconnect keeps the invariant, the clock and the latencies, and drops no entry |
| ScheduleProperties.SetTimeoutTicks | p2p/src/protocol/tests/simulator.rs:421-431 | a timeout schedules one `Tick` for the node itself, from the unspecified address, no earlier than now plus the duration |
| ScheduleProperties.EventIsIgnored | p2p/src/protocol/tests/simulator.rs:432-434 | an event changes nothing |
| ScheduleProperties.TranslateKeepsInv | p2p/src/protocol/tests/simulator.rs:281-439 | every schedulable output keeps the invariant, the clock and the latencies, and drops no scheduled entry |
| ScheduleProperties.FailureRateBoundaries | p2p/src/protocol/tests/simulator.rs:442-444 | with failure rate 0 messages and connects always succeed; with rate 1 a message always closes the connection and a connect never registers one |
| StepProperties.DrainedKeepsInv | p2p/src/protocol/tests/simulator.rs:263-266 | draining one node's outputs keeps the invariant, the clock and the latencies, and drops no entry |
| StepProperties.DrainedAllKeepsInv | p2p/src/protocol/tests/simulator.rs:244-249 | draining every peer's queue keeps the invariant, the clock and the latencies, and drops no entry |
| StepProperties.OfferedKeepsSymmetry | p2p/src/protocol/tests/simulator.rs:238-239 | offering one latency to both directions keeps the table symmetric, overwrites nothing, and fills both directions with that value |
| StepProperties.ConfiguredRowSound | p2p/src/protocol/tests/simulator.rs:230-241 | configuring one node's row keeps the table symmetric, overwrites nothing, draws new entries from the range and covers the row's pairs |
| StepProperties.ConfiguredSound | p2p/src/protocol/tests/simulator.rs:228-242 | configuring all rows keeps the latency table symmetric, never overwrites, and draws every new entry from the range |
| StepProperties.ConfiguredCovers | p2p/src/protocol/tests/simulator.rs:228-242 | after configuration every pair of distinct peers has a base latency in both directions |
| StepProperties.NextIsNotPast | p2p/src/protocol/tests/simulator.rs:258 | under the invariant the earliest entry is never before the current time: the "time only moves forwards" assertion cannot fail |
| StepProperties.PreparedKeepsInv | p2p/src/protocol/tests/simulator.rs:222-249 | configuring and draining keep the invariant and the clock and drop no entry |
| StepProperties.PreparedCoversPeers | p2p/src/protocol/tests/simulator.rs:228-249 | with a latency range configured, every pair of distinct peers has a base latency both ways once the queues are drained |
| StepProperties.DeliveredKeepsInv | p2p/src/protocol/tests/simulator.rs:251-275 | delivery moves the clock to the earliest entry's time, never backwards, removes that entry only, and keeps the invariant; an empty inbox changes nothing |
| StepProperties.StepKeepsInv | p2p/src/protocol/tests/simulator.rs:219-278 | a whole step keeps the invariant, never moves the clock backwards, and loses no entry except the one it delivers |
| Simulator.DoneIsSettled | p2p/src/protocol/tests/simulator.rs:164-182 | a simulation with nothing left to deliver has settled |
| Simulator.SettledDeliversTick | p2p/src/protocol/tests/simulator.rs:177-182 | in a settled simulation the next delivery is a `Tick`, and what remains after it is still settled |
| Simulator.InsertUnsettles | p2p/src/protocol/tests/simulator.rs:177-182 | scheduling any input other than a `Tick` unsettles the simulation |
| Simulator.Simulation.constructor | p2p/src/protocol/tests/simulator.rs:149-161 | a new simulation is empty, starts its clock at the given time and satisfies the invariant |
| Simulator.Simulation.IsDone | p2p/src/protocol/tests/simulator.rs:164-166 | done exactly when the inbox has no next input |
| Simulator.Simulation.Elapsed | p2p/src/protocol/tests/simulator.rs:170-172 | the start time plus the elapsed time is the current time |
| Simulator.Simulation.IsSettled | p2p/src/protocol/tests/simulator.rs:177-182 | settled exactly when only `Tick`s are scheduled; then the next input, if any, is a `Tick` |
| Simulator.Simulation.Schedule | p2p/src/protocol/tests/simulator.rs:281-439 | the new state is the specified translation of the output, and the invariant is kept |
| Simulator.Simulation.SendMessage | p2p/src/protocol/tests/simulator.rs:285-317 | the new state is the specified translation of a message |
| Simulator.Simulation.OpenConnection | p2p/src/protocol/tests/simulator.rs:318-386 | the new state is the specified translation of a connect |
| Simulator.Simulation.Establish | p2p/src/protocol/tests/simulator.rs:355-385 | a successful attempt registers both directions with swapped endpoints and schedules `Connected` at the remote, then at the initiator, after the latency; latencies and clock unchanged |
| Simulator.Simulation.CloseConnection | p2p/src/protocol/tests/simulator.rs:387-420 | the new state is the specified translation of a disconnect |
| Simulator.Simulation.Drain | p2p/src/protocol/tests/simulator.rs:263-266 | the new state is the specified translation of a node's outputs in queue order, and the invariant is kept |
| Simulator.Simulation.DrainQueues | p2p/src/protocol/tests/simulator.rs:244-249 | the new state is the specified drain of every peer's queue, peer by peer, and the invariant is kept |
| Simulator.Simulation.ConfigureLatencies | p2p/src/protocol/tests/simulator.rs:228-242 | the latency table becomes the specified configuration of all pairs; the connections and the clock are unchanged |
| Simulator.Simulation.ConfigureRow | p2p/src/protocol/tests/simulator.rs:231-240 | the latency table becomes the specified configuration of one node's row |
| Simulator.Simulation.Step | p2p/src/protocol/tests/simulator.rs:219-278 | the new state is the specified step; the invariant is kept; the clock and the elapsed time never decrease; the result is true exactly when the simulation is not done |

## Left out

- Display and logging: `fmt::Display for Scheduled` (`simulator.rs:28-74`) and the `info!`/`trace!` lines only format traces.
- The random number generator: every draw is an argument instead.
  - A range draw `u128(lo..hi)` is an arbitrary natural number reduced into the range. `SampleCovers` shows that every value is reachable.
  - The ephemeral port `u16(8192..)` is given directly as a port of at least 8192.
  - The coins are booleans.
  - The order in which the generator would produce these draws is not modelled.
- Floating point: the failure rate is a real number, and the `f64` sample is a real number in `[0, 1)`. On that range `% 1.0` is the identity, so it is dropped (`simulator.rs:442-444`).
- HashMap iteration order and hasher seeding (`simulator.rs:154-155, 223-232`).
  - Peers are drained in the order of the given sequence.
  - Latency pairs are visited by position in that sequence, each with its own draw `draw(i, j)`.
  - Peers must have distinct IP addresses (`DistinctIps`). The source keys peers by IP, so a duplicate would silently replace an earlier peer.
- The protocol's own `step` and `initialize` (`simulator.rs:210-214, 264`). The outputs the delivered node produces in reaction are a parameter of `Step`.
- The peers' upstream channels. Each is a sequence of outputs, and the model does not mark it as consumed.
- Three panics become preconditions:
  - `Out::Shutdown` is `unimplemented!` (`simulator.rs:435-437`);
  - a connect to one's own address (`simulator.rs:319`);
  - the node-not-found panic (`simulator.rs:270-274`), as `NodeFound`.
- Time overflow: `LocalTime` and `LocalDuration` are unbounded naturals, so `u64` overflow of `time + latency` is not modelled.
- `LocalTime` subtraction in `elapsed`: its definition is not part of this model. `Simulator.Simulation.Elapsed` requires `startTime <= time`, which the invariant of `Simulation` guarantees.
- `Inbox::iter` (`simulator.rs:87-89`): a read-only iterator over the entries that the core never calls.
- `Simulation::latency` is not a member of the class. It reads only the latency table and one draw, so it is the function `SimLatency.Latency` over that table.
- IP addresses are their numeric values, and a `NetworkMessage` is opaque: a command and a payload the simulator never inspects.
- `nakamoto-p2p/src/address_book.rs` and the `lib.rs` files are not part of this model. They hold file I/O, re-exports and module declarations.
