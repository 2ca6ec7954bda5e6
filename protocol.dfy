/** The FyrNode message envelope, the outbound actions a node performs, and
    the envelope builders that both variants of the library share. */
module Protocol {
  import opened Json

  /** A `uint32_t`. */
  type Uint32 = n: int | 0 <= n < 0x1_0000_0000

  /** A painlessMesh node id: an unsigned 32-bit number. */
  type NodeId = Uint32

  /** The `int32_t` offset painlessMesh reports with a time adjustment. */
  type Int32 = n: int | -0x8000_0000 <= n < 0x8000_0000

  // The envelope `type` names the library uses.
  const PING_REQUEST: string := "pingrequest"
  const PING_RESPONSE: string := "pingresponse"
  const HANDSHAKE_REQUEST: string := "handshakerequest"
  const HANDSHAKE_RESPONSE: string := "handshakeresponse"
  const MESH_UPDATE: string := "meshupdate"

  /** `reach.type`. */
  datatype ReachKind = Unicast | Broadcast | Internal
  {
    function Name(): string
    {
      match this
      case Unicast => "unicast"
      case Broadcast => "broadcast"
      case Internal => "internal"
    }
  }

  /** `reach.set`: the destination's id for a unicast, the text "null" otherwise. */
  datatype Target = Node(id: NodeId) | NullTarget
  {
    function ToJson(): Json
    {
      match this
      case Node(id) => Int(id)
      case NullTarget => Str("null")
    }
  }

  datatype Reach = Reach(kind: ReachKind, target: Target)

  /** An envelope `{type, origin, reach{type, set}, data{...}}`. */
  datatype Envelope = Envelope(kind: string, origin: NodeId, reach: Reach, data: map<string, Json>)

  /** The document an envelope is serialized from. Reading it back with the
      receive callbacks' lookups gives the envelope's fields again. */
  function ToJson(e: Envelope): (j: Json)
    ensures AsText(Member(j, "type")) == e.kind
    ensures AsUint32(Member(j, "origin")) == e.origin
    ensures AsText(Member(Member(j, "reach"), "type")) == e.reach.kind.Name()
    ensures e.reach.target.Node? ==> AsUint32(Member(Member(j, "reach"), "set")) == e.reach.target.id
    ensures e.reach.target.NullTarget? ==> AsText(Member(Member(j, "reach"), "set")) == "null"
    ensures forall key :: Member(Member(j, "data"), key) == if key in e.data then e.data[key] else Null
  {
    var reach := Obj(map["type" := Str(e.reach.kind.Name()), "set" := e.reach.target.ToJson()]);
    Obj(map["type" := Str(e.kind), "origin" := Int(e.origin), "reach" := reach, "data" := Obj(e.data)])
  }

  // What the receive callbacks read from a parsed message. The parsed
  // document is an arbitrary input; a lookup that finds nothing gives its
  // default.

  /** `String type = recieved["type"]`: the type text, or "null" when the
      message has no string `type`. */
  function MessageType(doc: Json): (t: string)
    ensures Member(doc, "type").Str? ==> t == Member(doc, "type").s
    ensures t != "null" ==> Member(doc, "type") == Str(t)
  {
    AsText(Member(doc, "type"))
  }

  /** `String pingID = recieved["data"]["ping"]`. */
  function PingId(doc: Json): (p: string)
    ensures Member(Member(doc, "data"), "ping").Str? ==> p == Member(Member(doc, "data"), "ping").s
    ensures p != "null" ==> Member(Member(doc, "data"), "ping") == Str(p)
  {
    AsText(Member(Member(doc, "data"), "ping"))
  }

  /** `uint32_t controlnode = recieved["data"]["control"]`: 0 when missing. */
  function ControlId(doc: Json): (c: NodeId)
    ensures Member(Member(doc, "data"), "control") == Null ==> c == 0
    ensures var v := Member(Member(doc, "data"), "control");
      v.Int? && 0 <= v.i < UINT32_LIMIT ==> c == v.i
    ensures c != 0 ==> Member(Member(doc, "data"), "control").Int? || Member(Member(doc, "data"), "control").Real?
  {
    AsUint32(Member(Member(doc, "data"), "control"))
  }

  /** The two serial ports: `Serial` (USB) and the control node's
      `serialport` (a SoftwareSerial link). */
  datatype Port = Serial | SerialPort

  /** A line printed on a port: plain text, or an envelope's serialization. */
  datatype Line = Text(s: string) | Doc(env: Envelope)

  /** What a node does to the outside world. */
  datatype Action =
    | SendSingle(dest: NodeId, env: Envelope)
    | SendBroadcast(env: Envelope)
    | Println(port: Port, line: Line)
  {
    predicate IsMeshSend()
    {
      SendSingle? || SendBroadcast?
    }

    /** A mesh send uses the primitive its envelope's reach names: a unicast
        goes to `sendSingle(reach.set)`, a broadcast (set "null") to
        `sendBroadcast`; an internal envelope is never sent. */
    predicate Routed()
    {
      match this
      case SendSingle(dest, env) => env.reach == Reach(Unicast, Node(dest))
      case SendBroadcast(env) => env.reach == Reach(Broadcast, NullTarget)
      case Println(_, _) => true
    }

    /** Every envelope the action carries names `self` as its origin. */
    predicate From(self: NodeId)
    {
      match this
      case SendSingle(_, env) => env.origin == self
      case SendBroadcast(env) => env.origin == self
      case Println(_, line) => line.Doc? ==> line.env.origin == self
    }
  }

  /** The invariant of a node's outbound log. */
  predicate WellFormed(out: seq<Action>, self: NodeId)
  {
    forall a :: a in out ==> a.Routed() && a.From(self)
  }

  /** The mesh sends among a node's actions, in order. */
  function MeshSends(out: seq<Action>): (m: seq<Action>)
    ensures |m| <= |out|
    ensures forall a :: a in m <==> a in out && a.IsMeshSend()
  {
    if out == [] then []
    else (if out[0].IsMeshSend() then [out[0]] else []) + MeshSends(out[1..])
  }

  lemma {:induction false} MeshSendsAppend(a: seq<Action>, b: seq<Action>)
    ensures MeshSends(a + b) == MeshSends(a) + MeshSends(b)
  {
    if a != [] {
      assert (a + b)[1..] == a[1..] + b;
      MeshSendsAppend(a[1..], b);
    } else {
      assert a + b == b;
    }
  }

  // ---------------------------------------------------------------------
  // Sensors

  /** The sensor types a sketch declares (`DHTTYP`, `GASTYP`, `FLMTYP`);
      a type of 0 or less means the sensor is absent. */
  datatype SensorConfig = SensorConfig(dhtType: int, gasType: int, flmType: int)

  /** What the hardware reports at the moment of a ping: DHT humidity and
      temperature, the gas sensor's analog level, the flame sensor's pin. */
  datatype Readings = Readings(humidity: real, temperature: real, gas: int, flame: int)

  /** The keys a configuration contributes to `data.sensors`. */
  predicate Configured(cfg: SensorConfig, key: string)
  {
    || ((key == "hum" || key == "temp") && cfg.dhtType > 0)
    || (key == "gas" && cfg.gasType > 0)
    || (key == "flame" && cfg.flmType > 0)
  }

  /** `fillDHT`: sets `hum` and `temp`, keeps every other key. */
  function FillDHT(sensors: map<string, Json>, r: Readings): (m: map<string, Json>)
    ensures m.Keys == sensors.Keys + {"hum", "temp"}
    ensures m["hum"] == Real(r.humidity) && m["temp"] == Real(r.temperature)
    ensures forall k :: k in sensors && k != "hum" && k != "temp" ==> m[k] == sensors[k]
  {
    sensors["hum" := Real(r.humidity)]["temp" := Real(r.temperature)]
  }

  /** `fillGAS`: sets `gas`, keeps every other key. */
  function FillGAS(sensors: map<string, Json>, r: Readings): (m: map<string, Json>)
    ensures m.Keys == sensors.Keys + {"gas"}
    ensures m["gas"] == Int(r.gas)
    ensures forall k :: k in sensors && k != "gas" ==> m[k] == sensors[k]
  {
    sensors["gas" := Int(r.gas)]
  }

  /** `fillFLM`: sets `flame`, keeps every other key. */
  function FillFLM(sensors: map<string, Json>, r: Readings): (m: map<string, Json>)
    ensures m.Keys == sensors.Keys + {"flame"}
    ensures m["flame"] == Int(r.flame)
    ensures forall k :: k in sensors && k != "flame" ==> m[k] == sensors[k]
  {
    sensors["flame" := Int(r.flame)]
  }

  /** `data.sensors` as the fill functions leave it: a reading for each
      configured sensor and for nothing else. */
  function SensorFields(cfg: SensorConfig, r: Readings): (m: map<string, Json>)
    ensures forall key :: key in m <==> Configured(cfg, key)
    ensures "hum" in m ==> m["hum"] == Real(r.humidity)
    ensures "temp" in m ==> m["temp"] == Real(r.temperature)
    ensures "gas" in m ==> m["gas"] == Int(r.gas)
    ensures "flame" in m ==> m["flame"] == Int(r.flame)
  {
    var withDHT := if cfg.dhtType > 0 then FillDHT(map[], r) else map[];
    var withGAS := if cfg.gasType > 0 then FillGAS(withDHT, r) else withDHT;
    if cfg.flmType > 0 then FillFLM(withGAS, r) else withGAS
  }

  // ---------------------------------------------------------------------
  // Envelope builders

  /** The answer to a ping: sent to the control node, echoing the ping id,
      carrying the configured sensors' readings. With no sensor configured
      the `sensors` object is never created. */
  function PingResponse(self: NodeId, control: NodeId, ping: string, cfg: SensorConfig, r: Readings): (e: Envelope)
    ensures e.kind == PING_RESPONSE && e.origin == self
    ensures e.reach == Reach(Unicast, Node(control))
    ensures e.data.Keys <= {"ping", "sensors"}
    ensures "ping" in e.data && e.data["ping"] == Str(ping)
    ensures "sensors" in e.data <==> cfg.dhtType > 0 || cfg.gasType > 0 || cfg.flmType > 0
    ensures "sensors" in e.data ==> e.data["sensors"] == Obj(SensorFields(cfg, r))
  {
    var sensors := SensorFields(cfg, r);
    assert cfg.dhtType > 0 ==> "hum" in sensors;
    assert cfg.gasType > 0 ==> "gas" in sensors;
    assert cfg.flmType > 0 ==> "flame" in sensors;
    var data := if sensors == map[] then map["ping" := Str(ping)]
                else map["ping" := Str(ping), "sensors" := Obj(sensors)];
    Envelope(PING_RESPONSE, self, Reach(Unicast, Node(control)), data)
  }

  /** What a receiver of a `pingresponse` finds under `data.sensors`: a
      value for exactly the configured sensors' keys. */
  lemma PingResponseSensorKeys(self: NodeId, control: NodeId, ping: string, cfg: SensorConfig, r: Readings, key: string)
    ensures var doc := ToJson(PingResponse(self, control, ping, cfg, r));
      Member(Member(Member(doc, "data"), "sensors"), key) != Null <==> Configured(cfg, key)
  {
  }

  function PingRequest(self: NodeId, ping: string): (e: Envelope)
    ensures e.kind == PING_REQUEST && e.origin == self
    ensures e.reach == Reach(Broadcast, NullTarget)
    ensures e.data == map["ping" := Str(ping)]
  {
    Envelope(PING_REQUEST, self, Reach(Broadcast, NullTarget), map["ping" := Str(ping)])
  }

  /** The control node's answer to a handshake request from `to`, naming
      the control node itself in `data.control`. */
  function HandshakeResponse(self: NodeId, to: NodeId): (e: Envelope)
    ensures e.kind == HANDSHAKE_RESPONSE && e.origin == self
    ensures e.reach == Reach(Unicast, Node(to))
    ensures "control" in e.data && e.data["control"] == Int(self)
  {
    Envelope(HANDSHAKE_RESPONSE, self, Reach(Unicast, Node(to)),
             map["message" := Str("handshake acknowledged"), "control" := Int(self)])
  }

  function HandshakeRequest(self: NodeId): (e: Envelope)
    ensures e.kind == HANDSHAKE_REQUEST && e.origin == self
    ensures e.reach == Reach(Broadcast, NullTarget)
  {
    Envelope(HANDSHAKE_REQUEST, self, Reach(Broadcast, NullTarget), map["message" := Str("handshake requested")])
  }

  function NewConnectionUpdate(self: NodeId, newNode: NodeId): (e: Envelope)
    ensures e.kind == MESH_UPDATE && e.origin == self
    ensures e.reach == Reach(Internal, NullTarget)
    ensures "change" in e.data && e.data["change"] == Str("newconnection")
    ensures "newnode" in e.data && e.data["newnode"] == Int(newNode)
  {
    Envelope(MESH_UPDATE, self, Reach(Internal, NullTarget),
             map["change" := Str("newconnection"), "message" := Str("New Node on Mesh"), "newnode" := Int(newNode)])
  }

  function ChangedConnectionUpdate(self: NodeId): (e: Envelope)
    ensures e.kind == MESH_UPDATE && e.origin == self
    ensures e.reach == Reach(Internal, NullTarget)
    ensures "change" in e.data && e.data["change"] == Str("changedconnection")
  {
    Envelope(MESH_UPDATE, self, Reach(Internal, NullTarget),
             map["change" := Str("changedconnection"), "message" := Str("Mesh Connections Modified")])
  }

  /** `nodeTime` is what `mesh.getNodeTime()` answers. */
  function NodeTimeAdjustUpdate(self: NodeId, nodeTime: Uint32, offset: Int32): (e: Envelope)
    ensures e.kind == MESH_UPDATE && e.origin == self
    ensures e.reach == Reach(Internal, NullTarget)
    ensures "change" in e.data && e.data["change"] == Str("nodetimeadjust")
    ensures "nodetime" in e.data && e.data["nodetime"] == Int(nodeTime)
    ensures "offset" in e.data && e.data["offset"] == Int(offset)
  {
    Envelope(MESH_UPDATE, self, Reach(Internal, NullTarget),
             map["change" := Str("nodetimeadjust"), "message" := Str("Node Time Adjusted"),
                 "nodetime" := Int(nodeTime), "offset" := Int(offset)])
  }

  // ---------------------------------------------------------------------
  // What each builder does with its envelope

  /** `respondPing`: one unicast to the control node. */
  function RespondPing(self: NodeId, control: NodeId, ping: string, cfg: SensorConfig, r: Readings): (out: seq<Action>)
    ensures WellFormed(out, self)
    ensures MeshSends(out) == [SendSingle(control, PingResponse(self, control, ping, cfg, r))]
  {
    [SendSingle(control, PingResponse(self, control, ping, cfg, r))]
  }

  /** `requestPing`: one broadcast, then a note on `port`. */
  function RequestPing(self: NodeId, ping: string, port: Port): (out: seq<Action>)
    ensures WellFormed(out, self)
    ensures MeshSends(out) == [SendBroadcast(PingRequest(self, ping))]
  {
    [SendBroadcast(PingRequest(self, ping)), Println(port, Text("pingrequest was sent"))]
  }

  /** `respondHandShake`: one unicast back to the requester. */
  function RespondHandShake(self: NodeId, from: NodeId): (out: seq<Action>)
    ensures WellFormed(out, self)
    ensures MeshSends(out) == [SendSingle(from, HandshakeResponse(self, from))]
  {
    [SendSingle(from, HandshakeResponse(self, from))]
  }

  /** `requestHandShake`: two lines on `Serial`, then one broadcast. */
  function RequestHandShake(self: NodeId): (out: seq<Action>)
    ensures WellFormed(out, self)
    ensures MeshSends(out) == [SendBroadcast(HandshakeRequest(self))]
  {
    var request := HandshakeRequest(self);
    var out := [Println(Serial, Text("handshake request runtime intiated")), Println(Serial, Doc(request)), SendBroadcast(request)];
    assert MeshSends(out[2..]) == [SendBroadcast(request)];
    assert out[1..][1..] == out[2..];
    out
  }

  /** A `meshupdate` callback: the envelope is printed on `port` and
      nothing goes onto the mesh. */
  function PrintUpdate(port: Port, update: Envelope): (out: seq<Action>)
    requires update.reach.kind == Internal
    ensures WellFormed(out, update.origin)
    ensures MeshSends(out) == []
    ensures |out| == 1 && forall a :: a in out ==> a.Println? && a.port == port && a.line == Doc(update)
  {
    [Println(port, Doc(update))]
  }

  /** A pinger button release: a ping id drawn from `random(0, 9999)` is
      rendered with `String(...)` and broadcast in a `pingrequest`; with
      no release nothing happens. */
  function PingerPress(self: NodeId, released: bool, pingId: int, port: Port): (out: seq<Action>)
    requires 0 <= pingId < 9999
    ensures WellFormed(out, self)
    ensures released ==> MeshSends(out) == [SendBroadcast(PingRequest(self, DecimalText(pingId)))]
    ensures !released ==> out == []
  {
    if released then RequestPing(self, DecimalText(pingId), port) else []
  }
}
