# FyrNode message protocol in Dafny

FyrNode is an Arduino library for ESP8266 sensor boards that join a
painlessMesh network. Each board is either a sensor node (`FyrNode`) or the
control node (`FyrNodeControl`). They exchange JSON envelopes of the form
`{type, origin, reach{type, set}, data{...}}`. This project models the
per-node protocol of both variants of the library and proves its
properties:

- `fyrnode/src/fyrnode.cpp`, the newer variant. An unbound sensor node
  broadcasts a `handshakerequest` every 11 ticks. The control node answers
  each request with a unicast `handshakeresponse` that names itself. The
  sensor node binds to whichever control node answered last, and it answers
  every `pingrequest` with a `pingresponse` to that control node.
- `src/fyrnode.cpp`, the older variant. It has no handshake. A sensor node is
  bound at `begin()` to a node id written into the library. The control node
  copies everything it receives to its serial link.

Modules:

- `Json` (json.dfy): a JSON document as a value. Also the lookups the
  receive callbacks make, with ArduinoJson's defaults: a missing member
  reads as null, null reads as `0` when converted to `uint32_t` and as
  `"null"` when converted to a `String`. Also `String(n)` for the ping ids.
- `Protocol` (protocol.dfy): node ids, envelopes and their documents, and
  the log of outbound actions (`SendSingle`, `SendBroadcast`, `Println` on
  `Serial` or on the SoftwareSerial `serialport`). It also holds the
  envelope builders and sensor `fill*` functions that both variants share.
  `Action.Routed` states that a send agrees with the reach of its envelope,
  and `WellFormed` requires that of every action in a log.
- `Handshaking` (handshaking.dfy): the newer variant. The globals
  `CONTROLNODE`, `MESHCONNECTED` and `handshaketimer` become fields of the
  class `FyrNode`; pin 16's level is a field too. The class
  `FyrNodeControl` models the control node. Each callback is a method that
  updates the fields and appends to `log`. Its contract ties the new state
  and the appended actions to a pure step function (`ConnectionTick`,
  `SensorReceive`, `ControlReceive`, `ControlUpdate`). The lemmas are about
  those functions, alone and chained over several ticks and both roles.
- `FixedBinding` (fixed_binding.dfy): the older variant, in the same shape.

Model of the environment:

- The transport's answers are parameters: `mesh.getNodeId()` is the node's
  `nodeId`, `mesh.isConnected` is a function argument and
  `mesh.getNodeTime()` is an argument.
- A received message is passed as its sender, its raw text and its parsed
  document. The parsed document is an arbitrary input. A lookup that finds
  no member gives ArduinoJson's default for the conversion.
- The envelope types the code knows are `pingrequest`, `pingresponse`,
  `handshakerequest`, `handshakeresponse` and `meshupdate`. A receiver
  ignores every other type.
- `reach.set` is the text "null" for a broadcast or an internal envelope,
  and the receiving node's id for a unicast.
- The sensor keys under `data.sensors` are `hum`, `temp`, `gas` and `flame`.
- The pinger button's release and `random(0, 9999)` are arguments. The
  sensor readings are arguments too.
- `mesh.update()` fires callbacks. These are modelled as calls of the
  receive and `meshupdate` methods. `Update` models what each node's
  `update()` does after `mesh.update()`.

Behaviours the proofs bring out:

- A `handshakeresponse` without `data.control` reads as control node 0.
  The sensor node then becomes unbound again and resumes its handshake
  count, and `MESHCONNECTED` keeps its last value (`MissingControlUnbinds`).
- An unbound sensor node still answers a `pingrequest`, with a unicast to
  node 0.
- In the older variant a ping answer reaches the control node only if that
  node's id is the built-in 3160379558 (`PingAnsweredToFixedControl`).

## Model

| member | source | states |
|---|---|---|
| `Json.Member` | fyrnode/src/fyrnode.cpp:175-184 | indexing a document gives the member's value when the document is an object holding the key, and null otherwise |
| `Json.AsUint32` | fyrnode/src/fyrnode.cpp:184 | the `uint32_t` read of a value always lies in 0..2^32-1; it is nonzero only for a number; an integer in range reads as itself; null (a missing field) reads as 0 |
| `Json.AsText` | fyrnode/src/fyrnode.cpp:175-179 | a string reads as itself, anything else as "null" |
| `Json.DecimalText` | fyrnode/src/fyrnode.cpp:325 | `String(n)` is a non-empty run of decimal digits with no leading zero (except "0" itself) |
| `Json.DecimalRoundTrip` | fyrnode/src/fyrnode.cpp:325 | reading the decimal text of a ping id back gives the id |
| `Json.DecimalTextInjective` | src/fyrnode.cpp:305 | two ping ids have the same text exactly when they are equal, so a response matches its request by text equality |
| `Protocol.ToJson` | fyrnode/src/fyrnode.cpp:73-88 | the document serialized for an envelope yields the envelope's type, origin, reach type, reach set and every data field when read back with the receive callbacks' lookups |
| `Protocol.MeshSendsAppend` | fyrnode/src/fyrnode.cpp:350-355 | a lemma about the action log: when two action sequences are appended one after the other (as successive callbacks append them), the mesh sends among them are the first's followed by the second's |
| `Protocol.MessageType` | fyrnode/src/fyrnode.cpp:175 | `recieved["type"]` as a `String`: the `type` member's text when it is a string; any other result than "null" means the document's `type` is exactly that string |
| `Protocol.PingId` | fyrnode/src/fyrnode.cpp:179 | `recieved["data"]["ping"]` as a `String`: the member's text when it is a string; any other result than "null" means `data.ping` is exactly that string |
| `Protocol.ControlId` | fyrnode/src/fyrnode.cpp:184 | `recieved["data"]["control"]` as `uint32_t`: 0 when `data.control` is missing, the number itself when it is an integer in range, and nonzero only for a number |
| `Protocol.FillDHT` | fyrnode/src/fyrnode.cpp:45-52 | `fillDHT` sets `hum` to the humidity and `temp` to the temperature and keeps every other sensor key and value |
| `Protocol.FillGAS` | fyrnode/src/fyrnode.cpp:56-60 | `fillGAS` sets `gas` to the analog reading and keeps every other sensor key and value |
| `Protocol.FillFLM` | fyrnode/src/fyrnode.cpp:64-68 | `fillFLM` sets `flame` to the digital reading and keeps every other sensor key and value |
| `Protocol.Action.Routed` | fyrnode/src/fyrnode.cpp:89-150 | a mesh send uses the primitive its envelope's reach names: `sendSingle(d)` only for an envelope with reach unicast and set `d` (lines 89 and 128), `sendBroadcast` only for reach broadcast and set "null" (lines 107 and 150) |
| `Protocol.WellFormed` | fyrnode/src/fyrnode.cpp:71-151 | every action in a node's log is routed by its envelope's reach and carries the node's own id as origin; every builder's and callback's contract keeps it |
| `Protocol.SensorFields` | fyrnode/src/fyrnode.cpp:45-85 | `data.sensors` holds `hum` and `temp` iff `DHTTYP > 0`, `gas` iff `GASTYP > 0`, `flame` iff `FLMTYP > 0`, no other key, each with the matching reading |
| `Protocol.PingResponse` | fyrnode/src/fyrnode.cpp:71-90 | a `pingresponse` from this node, reach unicast with set = the control node, `data.ping` = the ping id, no data keys besides `ping` and `sensors`; `sensors` is present iff some sensor type is positive and then holds exactly the configured readings |
| `Protocol.PingResponseSensorKeys` | src/fyrnode.cpp:84-86 | a receiver of the serialized `pingresponse` finds a value under `data.sensors.<key>` exactly for the configured sensors' keys |
| `Protocol.PingRequest` | fyrnode/src/fyrnode.cpp:93-104 | a `pingrequest` from this node, reach broadcast with set "null", carrying the ping id and nothing else |
| `Protocol.HandshakeResponse` | fyrnode/src/fyrnode.cpp:113-124 | a `handshakeresponse` from this node, reach unicast with set = the requester, `data.control` = this node's own id |
| `Protocol.HandshakeRequest` | fyrnode/src/fyrnode.cpp:132-142 | a `handshakerequest` from this node, reach broadcast with set "null" |
| `Protocol.NewConnectionUpdate` | fyrnode/src/fyrnode.cpp:190-202 | a `meshupdate` from this node with reach internal, `data.change` = "newconnection" and `data.newnode` = the new node |
| `Protocol.ChangedConnectionUpdate` | fyrnode/src/fyrnode.cpp:210-221 | a `meshupdate` from this node with reach internal and `data.change` = "changedconnection" |
| `Protocol.NodeTimeAdjustUpdate` | fyrnode/src/fyrnode.cpp:229-242 | a `meshupdate` from this node with reach internal, `data.change` = "nodetimeadjust", `data.nodetime` = the mesh time and `data.offset` = the offset |
| `Protocol.RespondPing` | fyrnode/src/fyrnode.cpp:87-89 | `respondPing` makes exactly one mesh send, `sendSingle(CONTROLNODE)` of the `pingresponse`, agreeing with its reach and from this node |
| `Protocol.RequestPing` | fyrnode/src/fyrnode.cpp:105-109 | `requestPing` makes exactly one mesh send, a `sendBroadcast` of the `pingrequest`, agreeing with its reach and from this node |
| `Protocol.RespondHandShake` | fyrnode/src/fyrnode.cpp:126-128 | `respondHandShake(from)` makes exactly one mesh send, `sendSingle(from)` of the `handshakeresponse`, agreeing with its reach |
| `Protocol.RequestHandShake` | fyrnode/src/fyrnode.cpp:144-150 | `requestHandShake` makes exactly one mesh send, a `sendBroadcast` of the `handshakerequest`, agreeing with its reach |
| `Protocol.PrintUpdate` | src/fyrnode.cpp:144-146 | a `meshupdate` envelope is printed once on the given port and never reaches a mesh send primitive |
| `Protocol.PingerPress` | fyrnode/src/fyrnode.cpp:322-328 | a button release with an id in [0, 9999) broadcasts exactly one `pingrequest` (reach broadcast, set "null") carrying `String(id)`; no release, no action |
| `Handshaking.ConnectionTick` | fyrnode/src/fyrnode.cpp:306-318 | `checkConnection` never changes `CONTROLNODE` and keeps the timer in 0..10. While bound it sends nothing, leaves the timer alone and sets `MESHCONNECTED` to `isConnected(CONTROLNODE)`. While unbound it leaves `MESHCONNECTED` alone and advances the timer modulo 11. It makes a mesh send iff it is unbound with the timer at 10, and that send is one `handshakerequest` broadcast |
| `Handshaking.SensorReceive` | fyrnode/src/fyrnode.cpp:169-187 | `messageRX` prints the received text on `Serial` first. On `pingrequest` it sends exactly one `pingresponse` by `sendSingle(CONTROLNODE)` echoing `data.ping`, state unchanged. On `handshakeresponse` it sets `CONTROLNODE` to `data.control` whatever its previous value, with no send. Any other type changes nothing and sends nothing. The timer and `MESHCONNECTED` never change |
| `Handshaking.ControlReceive` | fyrnode/src/fyrnode.cpp:154-166 | `messageRXControl` prints the text, answers a `handshakerequest` from X with exactly one `handshakeresponse` by `sendSingle(X)` naming itself, and sends nothing for any other type |
| `Handshaking.ControlUpdate` | fyrnode/src/fyrnode.cpp:376-381 | with `PINGER` set, a release broadcasts one `pingrequest` with the rendered id; otherwise the update does nothing |
| `Handshaking.ConnectionLED` | fyrnode/src/fyrnode.cpp:295-302 | pin 16 is driven low exactly when `MESHCONNECTED` is true |
| `Handshaking.UnboundRounds` | fyrnode/src/fyrnode.cpp:311-317 | an unbound node whose count `t` plus `n` ticks is `q` rounds of 11 and `rem` ends with the timer at `rem` after broadcasting exactly `q` handshake requests, still unbound |
| `Handshaking.UnboundCount` | fyrnode/src/fyrnode.cpp:311-313 | the step of `UnboundRounds` for a tick with the count below 10: that tick sends nothing and adds one to the count |
| `Handshaking.UnboundWrap` | fyrnode/src/fyrnode.cpp:314-317 | the step of `UnboundRounds` for a tick with the count at 10: that tick broadcasts one request and resets the count to 0 |
| `Handshaking.UnboundCadence` | fyrnode/src/fyrnode.cpp:311-317 | after `n` ticks from count `t` an unbound node's timer is `(t + n) % 11` and it has broadcast `(t + n) / 11` handshake requests: one every 11 ticks |
| `Handshaking.FirstHandshakeOnEleventhTick` | fyrnode/src/fyrnode.cpp:32-35 | from the initial globals, 10 ticks send nothing; the 11th sends exactly one handshake request and returns the node to its initial state |
| `Handshaking.BoundStaysQuiet` | fyrnode/src/fyrnode.cpp:308-310 | a bound node ticked any number of times sends nothing and keeps `CONTROLNODE` and the timer; `MESHCONNECTED` is the last connectivity answer |
| `Handshaking.Ticks` | fyrnode/src/fyrnode.cpp:350-355 | `n` successive `update()` calls, each one `checkConnection`: the binding `CONTROLNODE` is the same after any number of them |
| `Handshaking.TicksKeepTimerInRange` | fyrnode/src/fyrnode.cpp:311-317 | any number of ticks keeps the timer within 0..10 |
| `Handshaking.HandshakeBinds` | fyrnode/src/fyrnode.cpp:154-186 | the sensor's broadcast request, answered by the control node with one unicast back to the sensor, binds the sensor to the control node's id, after which its ticks send nothing |
| `Handshaking.MissingControlUnbinds` | fyrnode/src/fyrnode.cpp:182-186 | a `handshakeresponse` without `data.control` sets `CONTROLNODE` to 0 and changes nothing else; the next tick leaves `MESHCONNECTED` at its old value |
| `Handshaking.PingEchoed` | fyrnode/src/fyrnode.cpp:177-181 | the control node's ping broadcast, received by a sensor node, is answered by one unicast to that node's `CONTROLNODE` whose `data.ping` reads back as the same id |
| `Handshaking.FyrNode.constructor` | fyrnode/src/fyrnode.cpp:32-35 | a new sensor node is unbound with the timer at 0, `MESHCONNECTED` false and an empty log |
| `Handshaking.FyrNode.CheckConnection` | fyrnode/src/fyrnode.cpp:306-318 | the globals and the appended actions are those of `ConnectionTick`; the timer stays in 0..10 and the log stays well-formed |
| `Handshaking.FyrNode.SetConnectionLED` | fyrnode/src/fyrnode.cpp:295-302 | pin 16 takes the level `ConnectionLED(MESHCONNECTED)`; nothing else changes |
| `Handshaking.FyrNode.Update` | fyrnode/src/fyrnode.cpp:350-355 | one `ConnectionTick`, then the LED shows the new `MESHCONNECTED` |
| `Handshaking.FyrNode.MessageRX` | fyrnode/src/fyrnode.cpp:169-187 | the globals and the appended actions are those of `SensorReceive` |
| `Handshaking.FyrNode.RespondPing` | fyrnode/src/fyrnode.cpp:71-90 | appends `respondPing`'s unicast to the current `CONTROLNODE`; the globals are unchanged |
| `Handshaking.FyrNode.RequestHandShake` | fyrnode/src/fyrnode.cpp:132-151 | appends `requestHandShake`'s two prints and one broadcast; the globals are unchanged |
| `Handshaking.FyrNode.NewConnection` | fyrnode/src/fyrnode.cpp:190-207 | prints the `newconnection` update on `Serial`; nothing else changes |
| `Handshaking.FyrNode.ChangedConnection` | fyrnode/src/fyrnode.cpp:210-226 | prints the `changedconnection` update on `Serial`; nothing else changes |
| `Handshaking.FyrNode.NodeTimeAdjust` | fyrnode/src/fyrnode.cpp:229-247 | prints the `nodetimeadjust` update on `Serial`; nothing else changes |
| `Handshaking.FyrNodeControl.constructor` | fyrnode/src/fyrnode.cpp:358-364 | a new control node has `CONTROLNODE` 0 and an empty log |
| `Handshaking.FyrNodeControl.Begin` | fyrnode/src/fyrnode.cpp:366-374 | after `begin`, `CONTROLNODE` is the node's own id |
| `Handshaking.FyrNodeControl.MessageRXControl` | fyrnode/src/fyrnode.cpp:154-166 | appends the actions of `ControlReceive`; `CONTROLNODE` unchanged |
| `Handshaking.FyrNodeControl.RespondHandShake` | fyrnode/src/fyrnode.cpp:113-129 | appends `respondHandShake`'s unicast to the requester |
| `Handshaking.FyrNodeControl.CheckPinger` | fyrnode/src/fyrnode.cpp:322-328 | appends the actions of `PingerPress` with the note on `Serial` |
| `Handshaking.FyrNodeControl.Update` | fyrnode/src/fyrnode.cpp:376-381 | appends the actions of `ControlUpdate` |
| `Handshaking.FyrNodeControl.NewConnection` | fyrnode/src/fyrnode.cpp:190-207 | prints the `newconnection` update on `Serial` |
| `Handshaking.FyrNodeControl.ChangedConnection` | fyrnode/src/fyrnode.cpp:210-226 | prints the `changedconnection` update on `Serial` |
| `Handshaking.FyrNodeControl.NodeTimeAdjust` | fyrnode/src/fyrnode.cpp:229-247 | prints the `nodetimeadjust` update on `Serial` |
| `FixedBinding.SensorReceive` | src/fyrnode.cpp:114-127 | `sensornodeMessageRX` prints the text on `Serial`. A `pingrequest` is answered with exactly one `pingresponse` by `sendSingle(CONTROLNODE)` echoing `data.ping`. Every other type causes no send. It has no way to change `CONTROLNODE` |
| `FixedBinding.ControlReceive` | src/fyrnode.cpp:190-193 | `controlnodeMessageRX` prints the received text unchanged on `serialport` and sends nothing on the mesh |
| `FixedBinding.ControlUpdate` | src/fyrnode.cpp:299-308 | with `PINGER` set, a release broadcasts one `pingrequest` carrying the rendered id and notes it on `serialport`; otherwise nothing |
| `FixedBinding.PingAnsweredToFixedControl` | src/fyrnode.cpp:94-127 | a sensor node bound to 3160379558 answers the control node's ping broadcast with one unicast to 3160379558 whose `data.ping` reads back as the id sent |
| `FixedBinding.FyrNode.constructor` | src/fyrnode.cpp:256-262 | a new sensor node has `CONTROLNODE` 0 and an empty log |
| `FixedBinding.FyrNode.Begin` | src/fyrnode.cpp:264-273 | after `begin`, `CONTROLNODE` is 3160379558 |
| `FixedBinding.FyrNode.SensorNodeMessageRX` | src/fyrnode.cpp:114-127 | appends the actions of `SensorReceive` and leaves `CONTROLNODE` unchanged |
| `FixedBinding.FyrNode.RespondPing` | src/fyrnode.cpp:72-91 | appends `respondPing`'s unicast to `CONTROLNODE` |
| `FixedBinding.FyrNode.SensorNodeNewConnection` | src/fyrnode.cpp:130-147 | prints the `newconnection` update on `Serial` |
| `FixedBinding.FyrNode.SensorNodeChangedConnection` | src/fyrnode.cpp:150-166 | prints the `changedconnection` update on `Serial` |
| `FixedBinding.FyrNode.SensorNodeNodeTimeAdjust` | src/fyrnode.cpp:169-187 | prints the `nodetimeadjust` update on `Serial` |
| `FixedBinding.FyrNodeControl.constructor` | src/fyrnode.cpp:280-286 | a new control node has `CONTROLNODE` 0 and an empty log |
| `FixedBinding.FyrNodeControl.Begin` | src/fyrnode.cpp:288-297 | after `begin`, `CONTROLNODE` is the node's own id |
| `FixedBinding.FyrNodeControl.ControlNodeMessageRX` | src/fyrnode.cpp:190-193 | appends the actions of `ControlReceive` |
| `FixedBinding.FyrNodeControl.RequestPing` | src/fyrnode.cpp:94-111 | appends `requestPing`'s broadcast and its note on `serialport` |
| `FixedBinding.FyrNodeControl.Update` | src/fyrnode.cpp:299-308 | appends the actions of `ControlUpdate` |
| `FixedBinding.FyrNodeControl.ControlNodeNewConnection` | src/fyrnode.cpp:196-213 | prints the `newconnection` update on `serialport` |
| `FixedBinding.FyrNodeControl.ControlNodeChangedConnection` | src/fyrnode.cpp:216-232 | prints the `changedconnection` update on `serialport` |
| `FixedBinding.FyrNodeControl.ControlNodeNodeTimeAdjust` | src/fyrnode.cpp:235-253 | prints the `nodetimeadjust` update on `serialport` |

## Left out

- painlessMesh itself (`init`, `update`, routing, topology, time sync). Its answers (`getNodeId`, `isConnected`, `getNodeTime`) are parameters. Its sends are entries in the action log, and delivery is not modelled.
- ArduinoJson serialization, parsing and the 256-byte document capacity. Envelopes are structured values. A printed envelope is logged as the envelope, not as its text. No lemma assumes that parsing a serialized envelope gives back `ToJson` of it, but the end-to-end lemmas hand the receiver that document.
- Json.AsText: a ping value that is a number or an object is read as "null" here. The model does not carry ArduinoJson's rendering of such values. Every sender in this library puts a string there.
- Json.AsUint32: a fractional number is truncated. Other ArduinoJson conversions (a numeric string, say) read as 0.
- Json: the value type has no boolean and no array. In ArduinoJson `true` under `data.control` converts to `uint32_t` 1, so such a `handshakeresponse` binds the sensor node to node 1 (fyrnode/src/fyrnode.cpp:184); the model cannot express that document.
- Sensor values. DHT humidity and temperature are `real` readings, so a float NaN is not modelled. `analogRead` and `digitalRead` results are integer arguments. Only the presence of keys and the values passed are stated.
- `readIncoming` (fyrnode/src/fyrnode.cpp:250-291). It is serial-port input that prints the fields of a test document and drains the port on a parse error. It has no protocol effect.
- `FyrNode::begin` in the newer variant, and `Serial.begin`, `pinMode`, `dht.begin` and the button `begin` calls in both variants. They set up hardware and do not touch the protocol state. `FyrNode::update` in the older variant only calls `mesh.update()`.
- JC_Button debouncing and `random()`. The release and the id are inputs, and the id is required to lie in [0, 9999), as `random(0, 9999)` guarantees.
- `MESHHANDSHAKE` (fyrnode/src/fyrnode.cpp:34) is declared but never read or written.
- Handshaking.Ticks: the connectivity oracle is the same function for every tick of a run.
- src/fyrnode.h declares the two classes and holds no logic. install.py and libinstall.py copy files. controller.py is a serial read-and-print loop on the Raspberry Pi.
