# WSChat relay, modelled in Dafny

`WSChat` (chat.py) is a broadcast chat relay over WebSockets. Each client
connection is a channel. A client sends INIT to register an identity for its
channel, sends TEXT to broadcast a message or to send a direct message to one
identity, and sends the literal "ping" to get "pong" back. The relay keeps
`self.conns`, an identity-to-channel dict. It fans messages out over a
snapshot of that dict. It also runs leave handling for channels that are
closed (`_check_ws`) or whose send raises `ConnectionResetError`. Leave
handling pops the identity and broadcasts USER_LEAVE, which sweeps and sends
again, so `_broadcast`, `_check_ws` and `_leave_handler` recurse into each
other.

The model has these modules:

- `Registry` (registry.dfy): the dict as an insertion-ordered sequence of
  entries with distinct keys. It provides `Lookup` (`conns[id]`), `Assign`
  (`conns[id] = ws`) and `Pop` (`conns.pop(id)`). Insertion order matters:
  it fixes the snapshot order, hence the delivery order and which KeyError
  is raised.
- `Protocol` (protocol.dfy): decoded inbound and outbound frames, the
  exceptions a handler lets escape, and the per-channel views of the
  delivery log (`Outbox`, `Received`).
- `Relay` (relay.dfy): every handler as a function from a state (the
  registry plus the log of every frame written) to the state reached and
  whether an exception escaped. When one escapes, the state is the one at
  the raise. `skipStale = false` is the code as written. `skipStale = true`
  is the corrected loop (see Findings).
- `Chat` (chat.dfy): the `WSChat` object itself.
  - It mutates `conns` in place and writes through a `Transport` object.
  - Its methods loop over snapshots the way the Python does.
  - Each method is proved to end in exactly the state and outcome the matching `Relay` function gives.
- `RelayInvariants` and `Fanout` (relay_invariants.dfy, fanout.dfy): what
  the mutual recursion preserves, and exactly who receives a broadcast.
- `Notices` (notices.dfy): exactly who hears that an identity left.
- `Handlers` (handlers.dfy): per-handler theorems.
- `Findings` (findings.dfy): the two defects and the corrected loops.
- `Scenarios` (scenarios.dfy): concrete runs, including a whole two-user
  session driven through the `WSChat` object.

Terms used below:

- A channel is **live** when it is neither closed nor resetting.
- **Recipients** of a broadcast are the live registered channels whose
  identity is not ignored, in registry order.

## Model

| member | source | states |
|---|---|---|
| Registry.Lookup | chat.py:59 | `conns[to]` finds a channel exactly when `to` is a key, and the channel it finds is the one registered under `to` |
| Registry.LookupEntry | chat.py:59 | in a dict, looking up an entry's identity yields that entry's channel |
| Registry.Pop | chat.py:67 | `conns.pop(id)` removes one entry when `id` is present and only that identity disappears; nothing changes when `id` is absent; keys stay distinct |
| Registry.PopAt | chat.py:67 | in a dict with distinct keys, `pop` removes the entry at `id`'s position and keeps the entries before and after it in their order |
| Registry.Assign | chat.py:48 | `conns[id] = ws` binds `id` to `ws` and leaves every other lookup unchanged; the key set gains `id`; the length grows only for a new key; keys stay distinct |
| Registry.AssignAt | chat.py:48 | in a dict with distinct keys, assigning to a present key overwrites its entry where it stands and keeps every other entry in place |
| Registry.AssignNew | chat.py:48 | assigning to a new key appends its entry after all existing entries |
| Registry.AssignTwice | chat.py:48 | registering an identity twice leaves the same registry as registering it once with the later channel (one entry, bound to the most recent channel) |
| Relay.Leave | chat.py:66-68 | leave handling only removes entries and only appends to the log; an unregistered identity raises KeyError with nothing changed; any escaping exception is a KeyError |
| Relay.Broadcast | chat.py:18-28 | a broadcast only removes entries and only appends to the log; a connection reset never escapes it |
| Relay.Sweep | chat.py:61-64 | the liveness sweep only removes entries and only appends to the log; any escaping exception is a KeyError |
| Relay.SweepFrom | chat.py:62-64 | the rest of the sweep loop over the snapshot suffix obeys the same bounds |
| Relay.SendAll | chat.py:22-28 | the rest of the send loop over the snapshot suffix obeys the same bounds |
| Relay.Enter | chat.py:47-49 | INIT only grows the registry by the assignment it makes; everything after that only removes |
| Relay.Message | chat.py:51-59 | TEXT never adds a registry entry and only appends to the log |
| Relay.Dispatch | chat.py:36-45 | no frame except INIT can add a registry entry; a frame that is neither "ping", INIT nor TEXT changes nothing |
| Chat.Transport.Send | chat.py:26 | a send succeeds exactly when the channel does not reset, and then appends exactly that frame to the log |
| Chat.WSChat.constructor | chat.py:12 | a new relay starts with an empty registry |
| Chat.WSChat.Broadcast | chat.py:18-28 | the sweep-then-snapshot send loop ends in the state and outcome of `Relay.Broadcast`, and keeps the dict invariant |
| Chat.WSChat.CheckWs | chat.py:61-64 | the snapshot loop over closed channels ends in the state and outcome of `Relay.Sweep` |
| Chat.WSChat.LeaveHandler | chat.py:66-68 | pop then broadcast ends in the state and outcome of `Relay.Leave` |
| Chat.WSChat.EnterHandler | chat.py:47-49 | ends in the state and outcome of `Relay.Enter` |
| Chat.WSChat.MessageHandler | chat.py:51-59 | ends in the state and outcome of `Relay.Message`, and the direct-message path raises on an unknown target or a reset |
| Chat.WSChat.Receive | chat.py:36-45 | one iteration of the receive loop ends in the state and outcome of `Relay.Dispatch` |
| Protocol.Outbox | chat.py:26 | a channel's outbox holds exactly the frames delivered to it |
| Protocol.Received | chat.py:26 | the receivers of a frame are exactly the channels it was delivered to |
| Fanout.Recipients | chat.py:22-28 | a channel is reachable by a send loop exactly when some entry not ignored holds it and its send does not reset |
| Fanout.SendAllDelivers | chat.py:22-28 | the send loop delivers the frame to a prefix of the reachable snapshot channels, in order, and to all of them when it completes |
| Fanout.BroadcastDelivers | chat.py:18-28 | a broadcast gives its frame exactly to the recipients, once each and in registry order, when it completes; when an exception escapes, it has reached a prefix of them; a reset on one send does not stop the fan-out |
| Fanout.BroadcastLeavesLive | chat.py:18-28 | after a broadcast every live entry is still registered, in order; when it completes, no closed channel is registered, and a resetting one only under an ignored identity |
| RelayInvariants.Live | chat.py:63 | the live part of a registry holds exactly the registered entries whose channel is neither closed nor resetting |
| RelayInvariants.LeaveKeepsLive | chat.py:66-68 | leave handling of an identity keeps exactly the live entries of the registry with that key popped |
| RelayInvariants.BroadcastKeepsLive | chat.py:18-28 | leave handling run inside a broadcast never removes a live entry |
| RelayInvariants.SweepFromKeepsLive | chat.py:61-64 | the sweep never removes a live entry |
| RelayInvariants.SendAllKeepsLive | chat.py:22-28 | the send loop never removes a live entry |
| RelayInvariants.LeaveEvents | chat.py:66-68 | leave handling writes only USER_LEAVE frames, for identities registered when it began |
| RelayInvariants.BroadcastEvents | chat.py:18-28 | a broadcast writes only its own frame and USER_LEAVE frames for identities registered when it began |
| RelayInvariants.SweepFromClears | chat.py:61-64 | when the sweep completes, no closed channel is registered |
| RelayInvariants.SendAllDropsResets | chat.py:25-28 | when the send loop completes, a resetting channel stays registered only under an ignored identity |
| RelayInvariants.GuardedBroadcastOk | chat.py:18-28 | with stale snapshot entries skipped, a broadcast always completes |
| RelayInvariants.GuardedSweepFromOk | chat.py:61-64 | with stale snapshot entries skipped, the sweep always completes |
| Handlers.EnterRegisters | chat.py:47-49 | after INIT, `id` is bound to the new channel whenever that channel is live; a previous channel under `id` is gone; every other entry was registered before, and every live one still is |
| Handlers.EnterAnnounces | chat.py:47-49 | USER_ENTER{id} reaches exactly the live channels registered under other identities, in order, when the handler completes, and a prefix of them otherwise; the newcomer gets no echo unless another identity shares its channel |
| Handlers.TextBroadcast | chat.py:52-57 | MSG{id, text} reaches exactly the live channels registered under other identities, in order, when the handler completes, and a prefix of them otherwise; the sender's own channel gets no echo unless another identity shares it |
| Handlers.DirectMessage | chat.py:58-59 | DM to an unregistered target raises KeyError with nothing changed; a resetting target raises ConnectionResetError with nothing changed; otherwise exactly one DM is appended, to the target's outbox only, and the registry is unchanged |
| Handlers.LeaveNotifies | chat.py:66-68 | after leave handling the identity is gone, every other live entry remains, and USER_LEAVE reaches exactly the live channels left, in order (a prefix if an exception escapes) |
| Handlers.BroadcastNoEcho | chat.py:22-24 | a channel registered only under ignored identities never receives the broadcast frame |
| Handlers.SweepClears | chat.py:61-64 | a completed sweep leaves no closed channel registered; each identity it removed got exactly one USER_LEAVE to every live channel, in registry order, and no identity still registered got one; it never removes a live entry; it writes only USER_LEAVE frames for identities registered when it began |
| Notices.LeaveNotified | chat.py:66-68 | completed leave handling of an unhealthy identity announces each removed identity exactly to the live channels and no remaining identity |
| Notices.BroadcastNotified | chat.py:18-28 | a completed broadcast announces each identity it removed exactly to the live channels and no remaining identity |
| Notices.SweepFromNotified | chat.py:61-64 | the same for the sweep loop over a snapshot suffix |
| Notices.SendAllNotified | chat.py:22-28 | the same for the send loop over a snapshot suffix |
| Handlers.PingPongs | chat.py:38-40 | "ping" writes "pong" to the pinging channel first, then sweeps and writes nothing but leave notices; a reset on the pong escapes with nothing changed |
| Findings.SweepTwoClosedRaises | chat.py:61-64 | as written, from a state with two registered closed channels the sweep raises KeyError, and so does any broadcast started there, before its send loop: its own frame reaches nobody |
| Findings.SweepTwoClosedExample | chat.py:61-64 | "a"→1 and "b"→2 both closed: the sweep removes both and then raises KeyError("b"); the next sweep completes |
| Findings.GuardedSweepClears | chat.py:61-64 | the corrected sweep always completes, leaves no closed channel registered, keeps every live entry and writes only leave notices |
| Findings.BroadcastTwoResetsRaises | chat.py:22-28 | as written, a broadcast that reaches two resetting channels outside `ignore` raises KeyError |
| Findings.BroadcastOneResetOk | chat.py:18-28 | as written, with no closed channel and at most one resetting channel, a broadcast completes, delivers exactly to the recipients in order, and keeps a resetting channel registered only under an ignored identity |
| Findings.BroadcastTwoResetsExample | chat.py:22-28 | "a"→1 and "b"→2 both resetting: a message from "c" removes both and then raises KeyError("b") |
| Findings.GuardedBroadcastDelivers | chat.py:18-28 | the corrected broadcast always completes and delivers exactly to the recipients; afterwards no closed channel is registered, and a resetting one only under an ignored identity |
| Scenarios.TwoUserSession | chat.py:36-59 | "A" on channel 1, "B" on channel 2; A sends "hi" to all and "hey" to B: channel 1 gets only USER_ENTER{B}; channel 2 gets MSG then DM; every handler completes |
| Scenarios.ClosedLeaves | chat.py:61-68 | with B's channel closed, the sweep removes B and sends one USER_LEAVE{B} each to A and C, and nothing to B |
| Scenarios.ResetLeaves | chat.py:22-28 | a broadcast from A while C's channel resets still reaches B, removes C, and tells A and B that C left |

## Left out

- `main_page`, `run`, the `__main__` block and `__init__`'s host and port (chat.py:9-16, 70-80) are not modelled. They are HTTP routing and server start-up.
- The WebSocket handshake (chat.py:31-34) is not modelled. Neither is the end of the receive loop when a connection ends. Each inbound frame is handed to `Receive` already decoded.
- JSON parsing is not modelled. This includes `json.loads` raising on text that is not JSON, and the KeyError raised when `mtype`, `id`, `text` or `to` is missing. A frame that is not "ping" and not an INIT or TEXT object becomes `Other`, which changes nothing.
- Concurrency between connection tasks is not modelled. Each dispatched frame runs to completion on its own. The asyncio interleaving at each `await` is not captured, and neither are blocking sends.
- Whether a channel is closed or resets is fixed for the duration of one dispatched frame (`Env`, and the flags of `Transport`). Only the log changes during a handler. Closing a channel while a send is in flight is not captured.
- Frames are compared as decoded values, and "pong" is a distinct `Pong` frame. The exact JSON text is not modelled.

Error behaviour of chat.py that the model keeps:

- Popping an identity that is not registered raises KeyError (chat.py:67; `Relay.Leave`).
- A direct message to an unregistered target raises KeyError (chat.py:59; `Handlers.DirectMessage`).
- A TEXT frame sent before INIT raises nothing: the sender's identity is taken from the frame and never looked up (chat.py:52-57; `Relay.Message`).
- A connection reset on the pong (chat.py:39) or on a direct message (chat.py:59) escapes the handler. A reset during a broadcast triggers leave handling (chat.py:27-28).

## Findings

| source | as written | input that shows it | evidently intended | confidence | as-written member | corrected member |
|---|---|---|---|---|---|---|
| chat.py:61-64 | `_check_ws` pops every closed identity in its snapshot, but the leave handling of the first one already sweeps out the others | two registered closed channels, e.g. "a"→1 and "b"→2, both closed | skip snapshot identities that are no longer registered; the sweep then always completes and clears every closed channel | not executed | Findings.SweepTwoClosedRaises, Findings.SweepTwoClosedExample | Findings.GuardedSweepClears |
| chat.py:22-28 | after a send resets, `_broadcast` runs leave handling, whose nested broadcast already drops every other resetting channel; the outer loop then pops one of those again | two registered resetting channels outside `ignore`, e.g. "a"→1 and "b"→2, and a message from "c" | skip snapshot identities that are no longer registered; the broadcast then always completes and reaches exactly its recipients | not executed | Findings.BroadcastTwoResetsRaises, Findings.BroadcastTwoResetsExample | Findings.GuardedBroadcastDelivers |

The second defect needs two resetting channels: `Findings.BroadcastOneResetOk`
proves that the loop as written survives a single reset.

The corrected loops are the `skipStale = true` branch of the `Relay` functions
and of the `WSChat` object (constructed with `skipStale = true`). Every
theorem in `Handlers` holds for both variants.
