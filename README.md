# Relay state and device session of the LoraFireAlarm server

This project models the part of `server.js` that keeps shared state. That
state is two things. The first is the relay table `relayStates`: four entries,
one per node (Node1, Node2) and channel (channel 1 = mist sprayer, channel 2 =
water pump), all `'off'` at start-up. The second is the single device slot
`esp32Client`, which holds the ESP32's WebSocket connection or null.

The model covers every handler that reads or writes this state:

- the WebSocket `connection`, `message`, `close` and `error` handlers;
- `/api/control`, which checks the command against a closed list of ten strings, then checks that the device is ready, then writes the table optimistically, then sends one control frame;
- `/api/relay-status`, which validates node, status and channel before writing;
- the three sensor query handlers, which copy the current relay entries into every returned row.

Layout, one module per file:

- `js_values.dfy` (`JsValues`): the JavaScript values the handlers compare with `===`. These are `undefined`, strings, and any other JSON value kept opaque.
- `relays.dfy` (`Relays`): the relay table as a record of four entries, with `Get`, `Set` and the start-up table.
- `strings.dfy` (`Strings`): `startsWith` and `includes`.
- `commands.dfy` (`Commands`): the command list, the substring-based mapping to a relay entry, and `Dispatch`. `Dispatch` is the pure specification of one `/api/control` request.
- `status_updates.dfy` (`StatusUpdates`): the device's `relay-status` frames and the `/api/relay-status` body.
- `queries.dfy` (`Queries`): the `results.map` that attaches relay entries to sensor rows.
- `server.dfy` (`Server`): the class `RelayServer`, whose fields are `relayStates` and `esp32Client`. Its handler methods are proved against the functions above. The class `Socket` stands for a `ws` connection: its `readyState` and the frames handed to `send`.
- `traces.dfy` (`Traces`): lemmas about sequences of handler runs.

Inputs from outside are parameters:

- the decoded inbound frame is an `Option<Record>`; `None` means `JSON.parse` threw or the parsed value is not an object, and every such frame leaves the table unchanged;
- the outcome of `ws.send` reaches the model as the boolean `sendFails` (the callback's `err`);
- database results are a `DbResult` (rows or an error).

Behaviour of the code worth noting:

- A control request while the device is not ready is refused before the table is written, so the table stays unchanged.
- The device's `relay-status` frames are not validated. Any status value is stored verbatim, including `undefined` when the field is missing. Any channel other than the string `"1"` selects the pump entry.
- An `error` event does not clear the device slot. A `close` event on any handle clears it, including the late `close` of a handle that a newer connection has replaced.

## Model

| member | source | states |
|---|---|---|
| Relays.Initial | server.js:34-39 | at start-up every one of the four entries is "off" |
| Relays.Set | server.js:59-67 | writing one entry gives it the new value and leaves the other three entries as they were |
| Commands.ValidCommandsAreVocabulary | server.js:155-159 | a string is on the accepted list exactly when it is the wire form "<Node>:<action>" of one of the ten node × action commands (both directions) |
| Commands.PrefixPicksNode | server.js:168-174 | on a command of the vocabulary, the `startsWith('Node1:')` test holds exactly for Node1 commands and `startsWith('Node2:')` exactly for Node2 commands |
| Commands.SubstringsPickChannel | server.js:169-178 | on a command of the vocabulary, the `includes` tests select channel 1 with on/off for "led on"/"led off", channel 2 with on/off for "bom on"/"bom off", and no entry for "auto" |
| Commands.RelayWriteMatchesIntent | server.js:168-180 | for each of the ten commands, the substring mapping writes exactly the entry and state the command names, and nothing for "auto" |
| Commands.Dispatch | server.js:152-190 | 400 exactly for a command outside the list; otherwise `ClientNotReady` (500) exactly when the device is not ready; in both cases the table is unchanged and nothing is sent; past both checks exactly one frame `{type: 'control', command}` is sent, the reply is 200 on success and 500 on a send error |
| Commands.DispatchValidCommand | server.js:155-189 | for every command value on the list, with the device ready: it is the wire form of a vocabulary command, exactly that command's intended entry gets its value (none for "auto"), no other entry changes, and exactly its frame is sent |
| Commands.DispatchWritesIntended | server.js:167-189 | a dispatched command writes only the entry it names (led → channel 1, bom → channel 2, "on"/"off" as named), "auto" writes none, exactly one frame is sent, and a send error (500) does not undo the write |
| StatusUpdates.ApplyDeviceMessage | server.js:49-74 | an unparseable frame, a frame whose type is not "relay-status", or one naming an unknown node leaves the table unchanged |
| StatusUpdates.DeviceReportWritesOneEntry | server.js:55-69 | a relay-status frame for Node1/Node2 stores its status verbatim in that node's channel-1 entry when channel is "1" and in its channel-2 entry for any other channel; no other entry changes |
| StatusUpdates.HttpRelayStatus | server.js:193-213 | the reply is 200 exactly when node ∈ {Node1, Node2}, status ∈ {on, off} and channel ∈ {1, 2}, else 400 with the table unchanged; a valid body writes only the entry it names; if every entry was on/off it still is |
| Queries.WithRelays | server.js:115-124 | the response has one row per stored row, in order; each keeps the stored columns and carries the given relay values as `relay` and `relay2` |
| Server.Socket.constructor | server.js:45-47 | a connection delivered by `connection` is open and has nothing sent on it |
| Server.Socket.Send | server.js:182 | a send appends exactly the given frame to what the handle has been sent |
| Server.RelayServer.constructor | server.js:34-43 | the server starts with the all-"off" table and an empty device slot |
| Server.RelayServer.OnConnection | server.js:45-47 | a new connection replaces the slot's handle, whatever it held; an open new handle makes the device ready |
| Server.RelayServer.OnMessage | server.js:49-75 | a frame on any handle, current or superseded, changes the table as the device-frame specification says and changes nothing else |
| Server.RelayServer.OnClose | server.js:77-80 | a close on any handle empties the slot, also when a newer handle is in it |
| Server.RelayServer.OnError | server.js:82-84 | an error event leaves the slot and the table unchanged |
| Server.RelayServer.Control | server.js:152-190 | the reply and new table are those of the dispatch specification, with readiness read from the slot (a handle whose readyState is OPEN); the current handle gets exactly the dispatched frame appended; no other handle is written |
| Server.RelayServer.RelayStatus | server.js:193-214 | the reply and new table are those of the relay-status specification |
| Server.RelayServer.SensorsNode | server.js:108-148 | the status is 500 exactly on a database error, else 200; otherwise one row per stored row with the stored columns and the node's current channel-1 and channel-2 entries as `relay` and `relay2` |
| Server.RelayServer.SensorsAll | server.js:249-291 | the status is 500 exactly when either query fails, else 200; a Node1 query error is reported first, then a Node2 query error; otherwise each node's rows carry that node's current entries |
| Server.SupersededHandleExample | server.js:45-80 | after a reconnect the control frame reaches only the new handle, and the old handle's late close empties the slot, so the next control request is refused; the table ends as the one write left it (only Node2's mist entry "on") |
| Traces.ControlStoresOnOff | server.js:167-180 | a control request never stores anything other than "on"/"off" |
| Traces.StepStoresOnOff | server.js:167-213 | a control request, a relay-status post or a device frame reporting "on"/"off" keeps every entry on/off |
| Traces.OnOffPreserved | server.js:167-213 | any sequence of such requests and frames keeps a table of on/off entries on/off |
| Traces.OnOffFromStart | server.js:34-39 | from start-up, through the control and relay-status paths (and on/off device frames), every entry stays in {on, off} |
| Traces.DeviceFrameCanStoreUndefined | server.js:55-69 | the device path does not validate: a relay-status frame for Node1 without status or channel stores `undefined` in Node1's channel-2 entry |
| Traces.DistinctCommandsCommute | server.js:168-180 | two dispatched commands naming different entries give the same table in either order (no cross-talk) |
| Traces.DispatchIdempotent | server.js:168-180 | dispatching the same command twice gives the same table as dispatching it once |
| Traces.DeviceFrameOverridesDispatch | server.js:55-69 | after any sequence of control requests, device frames and relay-status posts, the frame {relay-status, Node2, "2", "off"} leaves Node2's channel-2 entry "off" and every other entry as it was |
| Traces.PumpScenario | server.js:155-180 | "Node1:bom on" makes Node1's channel-2 entry "on", then "Node1:bom off" makes it "off", then "Node3:led on" is rejected (400) with the table unchanged and nothing sent |

## Left out

- MySQL: the connection, the sensor insert and the select queries (server.js:18-31, 88-105, 109-113, 131-135, 250-263). The query handlers take the query's outcome as a `DbResult` parameter.
- Register and login (server.js:217-246, 294-321): these are bcrypt hashing and database lookups, which are foreign calls.
- Express middleware, static files, `sendFile` and `listen` (server.js:14-15, 324-340): HTTP plumbing.
- `JSON.parse` and `JSON.stringify`: a decoded frame is an `Option<Record>` and the outbound frame is the `ControlFrame` datatype. Its text form is not modelled. Nor is `res.json`'s serialisation of replies: a relay entry that is `undefined` (which the device path can store) makes `JSON.stringify` drop the `relay` or `relay2` key from the returned row, while the model keeps the key with the value `Undefined`.
- The `ws` library: `readyState` is a field of `Socket`, and the library's own transitions between its four states are not modelled.
- Asynchronous callbacks: the send callback and the database callbacks are taken as running at once, inside the handler.
- Console logging has no effect on state and is not modelled.
- Concurrency: Node.js runs each handler to completion on one event loop, so handlers are atomic methods and events are a sequence.
- The `!node` test of `/api/relay-status` (server.js:196) is implied by the membership test after it, so it is not modelled separately.
- `/api/relay-status` when `req.body` is not an object: the body is taken to be a decoded JSON object.
