# Pairing relay: connection registry model

This project models the connection registry of a WebSocket pairing relay.
A device (the *slave* role, attached under `/register`) and any number of
mobiles (the *master* role, attached under `/pair`) meet under a shared device
id. The registry maps each id to a pair of optional role slots. A slot holds one
broadcast channel and the count of connections of that role currently
subscribed to it. A text frame from one role is published on the slot of the
*other* role for the same id, and is dropped silently when that slot is absent.
Attaching creates the entry and the slot lazily or increments the count.
Detaching decrements the count without going below zero, clears the slot at
zero, and removes the entry once both slots are empty.

Layout:

- `wrappers.dfy`: `Option`.
- `state.dfy` (module `State`): roles, slots, connection pairs, channels,
  receivers, the registry value and its invariant `Inv`, and the attach step
  `Subscribed` from `src/state.rs`.
- `relay.dfy` (module `Relay`): routing (`Target`, `Publish`, `Forwarded`) and
  detach (`Unregistered`) from `src/lib.rs`, with the routing, invariant and
  round-trip lemmas.
- `trace.dfy` (module `Trace`): any interleaving of atomic attach / send /
  detach operations from the empty registry. In every balanced run, each
  slot's count equals the number of live connections of that id and role.
- `server.dfy` (module `Server`): the class `Connections` that holds the map
  and the channels as mutable fields. Its methods update them in place as the
  Rust code does, and each is proved equal to the matching step function.
  `HandleConnection` is the per-connection subscribe, forward loop, unregister
  skeleton. `BroadcastScenario` replays the integration test at
  tests/integration_test.rs:6-61. `NoCrossTalkScenario` follows the test at
  tests/integration_test.rs:107-143: a device and two mobiles, one mobile
  sends, the device receives it and the other mobile does not.
  `DeviceLeavesScenario` is a scenario of the detach rule: a device that
  attaches and leaves with no mobile leaves no entry behind.

Broadcast channels are abstract. The registry keeps every channel it has
created as an append-only log of messages, together with the backlog bound 100
it was created with. A slot names its channel by index, and a fresh channel gets
the next index. A receiver is a channel index plus the log position at which it
subscribed. What it has been sent is the log from that position on. This is how
"a receiver sees the messages published after it subscribed", fan-out to every
subscriber, and "never back to the sender's own role" are stated.

`subscribe_master` and `subscribe_slave` (`src/state.rs`) are the same code
applied to different slots. So are the two `is_master` branches of
`forward_message` and `unregister_client` (`src/lib.rs`). Each pair becomes one
operation taking an explicit `Role`. `MasterChannel` and `SlaveChannel` become
one `Slot` record. `src/types/mod.rs` declares `ClientType { Device, Mobile }`,
but `src/lib.rs` uses `ClientType::Slave` and `ClientType::Master`. The model
follows `src/lib.rs`: `Role = Master | Slave`, with `/register` giving Slave
(src/lib.rs:56) and `/pair` giving Master (src/lib.rs:65).

## Model

| member | source | states |
|---|---|---|
| `State.Role.Opposite` | src/lib.rs:120-137 | the destination role of a message is always the other role, never the sender's own |
| `State.ConnectionPair.With` | src/state.rs:17-25 | replacing one role's slot of a pair leaves the other role's slot as it was |
| `State.Subscribed` | src/state.rs:15-39 | after an attach the id has an entry; the role's count is one more than before; an existing slot keeps its channel and no channel is created; a missing slot becomes a slot with count 1 on a brand-new channel of capacity 100; the other role's slot and every other id are unchanged |
| `State.NewReceiver` | src/state.rs:15-39 | the handle an attach returns listens on the channel now stored in that role's slot and has nothing pending, so it sees only messages published afterwards |
| `State.SubscribeSlotAt` | src/state.rs:17-25 | an attach of (id, role) leaves every other (id', role') slot unchanged |
| `State.SubscribePreservesInv` | src/state.rs:15-39 | an attach keeps the invariant: no empty pair, every present slot has count at least 1 and a channel, no two slots share a channel, every channel has capacity 100 |
| `State.SubscribeKeepsReceivers` | src/state.rs:15-39 | an attach leaves every existing receiver attached to its slot with nothing new pending |
| `Relay.Publish` | src/lib.rs:126 | a send appends the text unmodified to exactly the target channel's log and changes no other channel |
| `Relay.Forwarded` | src/lib.rs:120-137 | forwarding never changes the id map; the text is appended verbatim to the opposite role's channel and to no other; with no entry or no opposite slot nothing at all changes |
| `Relay.ForwardDelivery` | src/lib.rs:120-137 | under the invariant, a receiver attached to slot (k, q) gains the message exactly when k is the sender's id and q is the opposite role; receivers of the sender's own role and of other ids gain nothing, and every receiver of the opposite slot gains it (fan-out) |
| `Relay.ForwardPreservesInv` | src/lib.rs:120-137 | forwarding keeps the registry invariant |
| `Relay.Unregistered` | src/lib.rs:139-161 | a detach lowers the role's count by one, saturating at zero; the slot becomes absent exactly when it was absent or its count was at most 1; a surviving slot keeps its channel; the other slot is unchanged; the id keeps an entry exactly when it had one and some slot is still present; other ids and all channels are unchanged; an absent id or slot is a no-op apart from dropping an empty pair |
| `Relay.UnregisterSlotAt` | src/lib.rs:141-156 | a detach of (id, role) leaves every other (id', role') slot unchanged, and a surviving slot keeps its channel |
| `Relay.UnregisterPreservesInv` | src/lib.rs:139-161 | a detach keeps the registry invariant, in particular no `(None, None)` pair is left in the map |
| `Relay.UnregisterKeepsReceivers` | src/lib.rs:139-161 | after a detach, receivers on other slots stay attached; receivers on the detached slot stay attached while other subscribers remain |
| `Relay.SubscribeUnregisterRoundTrip` | src/lib.rs:139-161 | under the invariant, an attach of (id, role) followed by its detach gives back exactly the id map it started from; an id with no entry before has none after |
| `Trace.PresentIffCounted` | src/lib.rs:157-159 | under the invariant, an id has an entry exactly when one of its two roles has a positive count |
| `Trace.CountIsLive` | src/lib.rs:68-118 | in any balanced run from the empty registry, where each connection attaches once before any detach of it, the invariant holds, every slot's count equals the number of live attaches of that id and role, and an id has an entry exactly when some connection for it is live |
| `Server.Connections.constructor` | src/lib.rs:37 | the server starts with an empty registry satisfying the invariant |
| `Server.Connections.Subscribe` | src/state.rs:15-39 | the in-place attach (entry inserted as an empty pair when missing, count bumped or a new slot stored) yields exactly `Subscribed` of the old value and returns the attached receiver with nothing pending |
| `Server.Connections.Forward` | src/lib.rs:120-137 | the in-place send changes only the channels and yields exactly `Forwarded` of the old value |
| `Server.Connections.Unregister` | src/lib.rs:139-161 | the in-place detach changes only the id map and yields exactly `Unregistered` of the old value |
| `Server.Connections.HandleConnection` | src/lib.rs:68-118 | one connection's attach, in-order forwarding of each inbound text frame, and single detach leave the id map exactly as before; the returned receiver is the one the attach handed out on the connection's own slot; the opposite role's channel receives every frame verbatim and in order; no other existing channel changes; the connection's own receiver gets none of its own frames |
| `Server.BroadcastScenario` | tests/integration_test.rs:6-61 | with a device and three mobiles on "d1", each mobile has received exactly "hello mobiles" and the device exactly "hello device" |
| `Server.NoCrossTalkScenario` | tests/integration_test.rs:107-143 | with a device and two mobiles on "d2", the first mobile's "from mobile1" reaches the device exactly, the second mobile receives nothing, and the send leaves the id map unchanged |
| `Server.DeviceLeavesScenario` | src/lib.rs:139-161 | a device that attaches and detaches with no mobile leaves no entry for its id |

## Left out

- Network transport: `run_server`, `run_server_on` (apart from the empty registry at src/lib.rs:37), the axum router, the WebSocket upgrade handlers and TCP binding. The `SERVER_PORT` setting is configuration. The route-to-role mapping is recorded on `Role` only.
- The `tokio::select!` body of `handle_connection`. Inbound text frames become the `inbound` sequence, and a non-text frame, a close or a socket error is its end. The outbound arm, which copies messages from the receiver to the socket, is represented by `Pending`. Socket write failures are not modelled.
- `log_forward`: logging plus a JSON re-rendering that never reaches the delivered bytes.
- Tokio broadcast internals. The capacity 100 is recorded on each channel but not enforced: the log is unbounded. Lagging, dropping the oldest message, the `Closed` and `Lagged` receive errors, and the send error when no receiver exists are not modelled. A channel whose slot is cleared stays in the list of channels, unreachable from the map.
- The `RwLock`: each operation is one atomic step. Interleavings of concurrent connections appear only as orders of events in `Trace`.
- `Server.Connections.HandleConnection`: proved for a connection whose lifetime no other connection's operation interleaves with. Interleaved lifetimes are covered by `Trace.CountIsLive`.
- State.Subscribed: the subscriber count is an unbounded `nat`, so the overflow of Rust's `usize` `+= 1` after 2^64 attaches is not modelled.
- `src/types/mod.rs` (`ConnectParams`, `ClientType`): plain data, replaced by `DeviceId` and `Role`.
