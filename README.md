# Paired-client chat relay: connection registry and routing step

This project models the core of a small FastAPI WebSocket chat server
(`main.py`). Each client connects under a numeric id. It sends frames of the
form `"<target_id>:<message>"`, and the server relays
`"Client #<sender> says: <message>"` to the target's connection, if that
target is connected. The server remembers who has chatted with whom. When a
client's connection closes, every peer that is still connected gets the notice
`"Client #<id> left the chat"`.

The model has five modules:

- `Wrappers` (`wrappers.dfy`): `Option` and `Result`.
- `Decimal` (`decimal.dfy`): Python's `str()` of an int and `int()` of a string.
  It includes the round trip `int(str(n)) == n`, and the proof that
  `str(int(s)) == s` holds exactly when `s` is in canonical form.
- `Frames` (`frames.dfy`): the first-colon split of an inbound frame, the
  frame parser, and the two outbound texts. It proves that every
  `"<t>:<p>"` parses back to `(t, p)`, and that the outbound texts cannot be
  confused with each other.
- `Registry` (`registry.dfy`): the `ConnectionManager` class.
  - Its two fields are the maps `activeConnections` (id → handle) and
    `chatPairs` (id → set of peer ids).
  - The object invariant `Valid()` says the two maps have the same keys.
    Every method keeps it.
  - The methods are `Connect`, `Disconnect`, `SendPersonalMessage` and
    `UpdateChatPairs`. The loop that fans out departure notices is the method
    `DepartureNotices`.
  - Its pure partners are `AddPairing` (the pairing update on the map) and
    `IsDepartureFanOut` (the notices that a disconnect schedules).
- `Relay` (`relay.dfy`):
  - `RouteFrame`: the body of the read loop of `websocket_endpoint`.
  - `HandleEvent` and `ReadLoop`: one pass of the loop, and the loop itself.
  - `Endpoint`: connect, the loop, and `disconnect` on `WebSocketDisconnect`.
  - `Session`, `RelayAll` and `PairAll`: pure descriptions of what one session
    routes, sends and pairs.
  - `Walkthrough`: a two-client walk-through.

Connection handles are an opaque type parameter `H`. A `send_text` call
becomes a returned `Send(to, handle, text)` record. `receive_text` becomes a
given sequence of `Event`s: `Received(data)`, or `Closed` for the
`WebSocketDisconnect` it raises. Python exceptions become `Result` and `Ending`
values.

Where a chat relay might be expected to behave differently, the model follows the code:

- The departure notice is `"Client #<id> left the chat"` (main.py:47), not a
  fixed literal: it names the departing id, and every notified peer gets the
  same text.
- A failed send does not tear down its target. `send_text` at main.py:61 only
  raises.
- A malformed frame is not dropped. The `ValueError` from main.py:90-91 leaves
  `websocket_endpoint` because only `WebSocketDisconnect` is caught
  (main.py:96). So `disconnect` never runs for that client, and it stays
  registered (`Endpoint`, ending `Raised`).
- Pairing is not kept symmetric. `disconnect` does not remove the departing id
  from its peers' sets (main.py:43-50). A re-`connect` resets only the
  reconnecting client's own set (main.py:32).
- A repeated id is not rejected. `connect` overwrites the old handle and peer
  set (main.py:31-32).

## Model

| member | source | states |
|---|---|---|
| `Decimal.NatToString` | main.py:95 | `str()` of a non-negative int is a nonempty digit run with no superfluous leading zero, whose decimal value is the number |
| `Decimal.IntToString` | main.py:95 | `str()` of an int: nonempty, only digits except a leading `-`, which appears exactly for negative numbers |
| `Decimal.ParseInt` | main.py:91 | succeeds exactly on an optional sign followed by at least one digit, of any length, and returns the signed decimal value (Python's digit limit is under "## Left out") |
| `Decimal.ParseIntOfIntToString` | main.py:91-95 | `int(str(n)) == n` for every integer |
| `Decimal.IntToStringIsCanonical` | main.py:95 | `str()` never writes `+`, a leading zero or `-0` |
| `Decimal.NatToStringOfDigits` | main.py:91-95 | a canonical digit run is exactly what `str()` writes for its value |
| `Decimal.CanonicalRoundTrip` | main.py:91-95 | for a literal `int()` accepts, `str(int(s)) == s` if and only if `s` is canonical |
| `Decimal.IntToStringInjective` | main.py:95 | different ids are written as different texts |
| `Frames.SplitAtFirst` | main.py:90 | `split(":", 1)` unpacked into two: fails exactly when there is no separator; otherwise the text is head + separator + tail and the head has no separator |
| `Frames.SplitAtFirstOfJoin` | main.py:90 | splitting head + separator + tail, where the head has no separator, gives back exactly head and tail, so the tail may contain further separators |
| `Frames.ParseFrame` | main.py:90-91 | no colon gives the unpacking error and only then; a bad target gives the offending prefix before the first colon; success gives the target parsed from the text before the first colon and the payload after it |
| `Frames.FrameRoundTrip` | main.py:90-91 | every frame `"<t>:<p>"`, with `t` written by `str()`, parses to `(t, p)`, including payloads that contain colons |
| `Frames.ClientTextShape` | main.py:47-95 | `"Client #<n> <rest>"`: the prefix, then `str(n)`, which `int()` reads back as `n`, then one space, then `rest` |
| `Frames.SaysTextShape` | main.py:95 | the relayed f-string: the prefix, the sender's id readable back by `int()`, a space, then `says: ` followed by the message |
| `Frames.LeftTextShape` | main.py:47 | the departure f-string: the prefix, the departing id readable back by `int()`, a space, then `left the chat` |
| `Frames.ClientTextInjective` | main.py:47 | an outbound text `"Client #<n> <rest>"` determines `n` and `rest` |
| `Frames.SaysTextInjective` | main.py:95 | a relayed text determines its sender and its message |
| `Frames.LeftTextInjective` | main.py:47 | a departure notice determines who left |
| `Frames.SaysTextIsNotLeftText` | main.py:47-95 | no relayed message equals any departure notice |
| `Registry.DistinctRecipientsCount` | main.py:43-48 | sends to pairwise distinct ids are as many as their recipients |
| `Registry.DepartureFanOutReach` | main.py:41-48 | when the departing id has no handle left, there is exactly one notice per peer that is still connected, a peer is notified if and only if it is connected, and the departing id is never notified |
| `Registry.FanOutToOne` | main.py:43-48 | a client paired with one connected peer sends it exactly one notice, on its handle |
| `Registry.DepartureNotices` | main.py:43-48 | the for-loop over the peer set, in any iteration order: distinct recipients, exactly the peers that still have a handle, each on its own handle with the given text |
| `Registry.AddPairing` | main.py:70-72 | the target joins the sender's set; the sender joins the target's set when the target has one; no key is added and no other set changes |
| `Registry.AddPairingSymmetry` | main.py:70-72 | the target is always in the sender's peers; the sender is in the target's peers when the target had an entry; the target never gains an entry |
| `Registry.AddPairingIdempotent` | main.py:70-72 | repeating a pairing update changes nothing |
| `Registry.ConnectionManager.constructor` | main.py:17-21 | both maps start empty, so the invariant holds |
| `Registry.ConnectionManager.Connect` | main.py:23-32 | the handle replaces any earlier one for the id; the id's peer set becomes empty; every other id keeps its entries; the invariant is kept |
| `Registry.ConnectionManager.Disconnect` | main.py:34-50 | a registered id leaves both maps, the other entries stay as they were (peers keep the id in their sets), and the notices are the departure fan-out over the old peer set; an unregistered id changes nothing and sends nothing, so a second disconnect is a no-op |
| `Registry.ConnectionManager.SendPersonalMessage` | main.py:52-61 | no send when the id has no handle, otherwise exactly one send of the message on that handle; the registry is only read |
| `Registry.ConnectionManager.UpdateChatPairs` | main.py:63-72 | reports `KeyError` exactly when the sender has no peer set, and then changes nothing; otherwise applies `AddPairing`; handles never change |
| `Relay.RouteFrame` | main.py:89-95 | a malformed frame fails before any pairing change; an unregistered sender fails with `KeyError` and nothing changes; otherwise the pairing is added and the text `"Client #<sender> says: <payload>"` goes to the target if it is connected |
| `Relay.Relayed` | main.py:93-95 | no send exactly when the target has no handle; otherwise one send to the target, on its handle, of `SaysText(sender, message)` |
| `Relay.StepOf` | main.py:89-91 | when one pass of the loop body ends the loop, it is not waiting for more input, and an exception at this point is never the `KeyError` |
| `Relay.StepOfCases` | main.py:89-96 | the loop ends by disconnect exactly on a close; a frame is routed exactly when it parses, and then as what it parses to; it raises exactly when it is malformed, and then with that parse error |
| `Relay.Session` | main.py:87-98 | the frames one session routes are at most its events, and without other sessions it never ends by `KeyError` |
| `Relay.SessionRoutesEvents` | main.py:87-95 | the i-th routed frame is what the i-th event parses to |
| `Relay.SessionEnds` | main.py:87-98 | the loop is still waiting exactly when every event was routed; otherwise it stops at the event right after the routed ones, which is a close or a malformed frame |
| `Relay.SessionIgnoresLaterEvents` | main.py:87-98 | once the loop has ended, nothing received afterwards is read |
| `Relay.RelayAll` | main.py:93-95 | at most one send per routed frame, each on the handle of a connected target of the session |
| `Relay.RelayAllToPresentTargets` | main.py:93-95 | frames addressed only to connected ids send one message per frame, in order, each to its target, on its handle, with `"Client #<sender> says: <message>"` |
| `Relay.RelayAllToAbsentTargets` | main.py:59-61 | frames addressed only to ids without a handle deliver nothing and raise nothing |
| `Relay.PairAll` | main.py:93 | a session's pairing updates add no keys |
| `Relay.PairAllPeers` | main.py:93 | the sender's peer set grows by exactly the targets it addressed |
| `Relay.HandleEvent` | main.py:89-96 | one pass of the loop: a close or a malformed frame changes nothing; a routed frame updates the pairing and yields its relayed send |
| `Relay.ReadLoop` | main.py:87-95 | the loop routes exactly the frames of `Session`, ends as `Session` says, changes only the pairing map (by `PairAll`) and sends exactly `RelayAll` |
| `Relay.Endpoint` | main.py:77-98 | after a close the client is unregistered, its relayed messages went out in order, and then exactly one departure notice went to each target it addressed that is still connected; after an exception or while waiting, the client stays registered with the handle it connected with |
| `Relay.WalkthroughTexts` | main.py:47-95 | `"2:hi"` parses to `(2, "hi")`, and the two texts are `"Client #1 says: hi"` and `"Client #2 left the chat"` |
| `Relay.Walkthrough` | main.py:85-98 | clients 1 and 2 connect; `"2:hi"` from 1 reaches 2 as `"Client #1 says: hi"`; 2's disconnect sends 1 exactly `"Client #2 left the chat"`; a second `"2:hi"` from 1 delivers nothing and raises nothing |

## Left out

- The WebSocket transport is left out: `accept`, `receive_text` and `send_text`. So are FastAPI routing, the static-file mount and `read_root` (main.py:2-11, 100-107). These are foreign library I/O; receives become a given event sequence and sends become returned records.
- `asyncio.create_task` is left out. Departure notices are returned in the order they would be scheduled; when they run, and whether they fail, is not modelled.
- Interleaving with other connections' tasks is left out. `Endpoint` and `ReadLoop` model one connection whose events are processed while the other connections stay idle.
- Relay.Session: it states that a session never ends by `KeyError`. That holds only for a session on its own. With two live connections under one id, the first one's disconnect removes the shared entry, and then the second one's next frame raises `KeyError` in `update_chat_pairs`. `RouteFrame` and `UpdateChatPairs` do model this `KeyError` path.
- What happens after a `send_text` fails is left out. In the code, its exception propagates out of the sending client's loop. Depending on the exception type, that may or may not run `disconnect` for the sender.
- Decimal.ParseInt: it does not model all of Python's `int()` grammar. It accepts only an optional `+` or `-` followed by ASCII digits. It rejects surrounding whitespace, `_` digit separators and non-ASCII digits; Python accepts them.
- Decimal.ParseInt: it has no digit limit. Since CPython 3.11 (and the 3.10.7, 3.9.14 and 3.8.14 security releases), `int()` raises `ValueError` on a literal of more than `sys.get_int_max_str_digits()` digits, 4300 by default. So a frame such as `"1"*4301 + ":hi"` is routed by the model, whereas main.py:91 raises, the endpoint exits, and the client stays registered. `Frames.FrameRoundTrip`, `Relay.StepOf`, `Relay.Session` and `Relay.RouteFrame` inherit this.
- Decimal.IntToString: it has no digit limit either. The same CPython limit makes `str()` of an id with more than 4300 digits raise inside the f-strings at main.py:47 and main.py:95, which `Frames.ClientText`, `Frames.SaysText` and `Frames.LeftText` do not model.
- Registry.ConnectionManager.SendPersonalMessage: it treats every stored handle as truthy in the `if websocket:` test (main.py:60). A Starlette `WebSocket` is a non-empty mapping, so it always is.
- Python mutates the peer sets in place. The model replaces the set stored in the map, which has the same observable effect, because no set object is shared between two keys.
- `demo/ws_demo.py` is not part of this model. It is an accept/receive/echo loop with no state.
