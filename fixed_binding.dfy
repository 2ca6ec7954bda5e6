/** The earlier variant of the FyrNode library (src/fyrnode.cpp): there is
    no handshake. A sensor node is bound at `begin()` to a control node id
    written into the library, and the control node forwards whatever it
    receives to its serial link.

    As in module Handshaking, `CONTROLNODE` is a field of the node objects
    and every send and every `println` is appended to the node's `log`. */
module FixedBinding {
  import opened Json
  import opened Protocol

  /** The control node id `FyrNode::begin` binds every sensor node to. */
  const FIXED_CONTROL_NODE: NodeId := 3160379558

  /** `sensornodeMessageRX`: the message is printed, a `pingrequest` is
      answered with one `pingresponse` to the control node that echoes the
      ping id, and every other message is ignored. It has no way to change
      the control node. */
  function SensorReceive(control: NodeId, self: NodeId, cfg: SensorConfig, readings: Readings,
                         from: NodeId, raw: string, doc: Json): (out: seq<Action>)
    ensures |out| >= 1 && out[0] == Println(Serial, Text(raw))
    ensures WellFormed(out, self)
    ensures MessageType(doc) == PING_REQUEST ==>
      MeshSends(out) == [SendSingle(control, PingResponse(self, control, PingId(doc), cfg, readings))]
    ensures MessageType(doc) != PING_REQUEST ==> MeshSends(out) == []
  {
    var echo := [Println(Serial, Text(raw))];
    if MessageType(doc) == PING_REQUEST then
      MeshSendsAppend(echo, RespondPing(self, control, PingId(doc), cfg, readings));
      echo + RespondPing(self, control, PingId(doc), cfg, readings)
    else
      echo
  }

  /** `controlnodeMessageRX`: the received text goes to `serialport`
      unchanged, and nothing goes onto the mesh. */
  function ControlReceive(from: NodeId, raw: string): (out: seq<Action>)
    ensures MeshSends(out) == []
    ensures |out| == 1 && out[0].Println? && out[0].port == SerialPort && out[0].line == Text(raw)
  {
    [Println(SerialPort, Text(raw))]
  }

  /** `FyrNodeControl::update` after `mesh.update()`: with `PINGER` set, a
      pinger release broadcasts one ping and notes it on `serialport`. */
  function ControlUpdate(self: NodeId, pinger: bool, released: bool, pingId: int): (out: seq<Action>)
    requires 0 <= pingId < 9999
    ensures WellFormed(out, self)
    ensures pinger && released ==> MeshSends(out) == [SendBroadcast(PingRequest(self, DecimalText(pingId)))]
    ensures pinger && released ==> Println(SerialPort, Text("pingrequest was sent")) in out
    ensures !(pinger && released) ==> out == []
  {
    if pinger then PingerPress(self, released, pingId, SerialPort) else []
  }

  /** A ping end to end: the control node's pinger broadcasts an id; a
      sensor node bound to the fixed id answers that id alone with a
      `pingresponse` whose `data.ping` reads back as the same ping id. The
      answer reaches the control node only if its own id is the fixed one. */
  lemma PingAnsweredToFixedControl(control: NodeId, sensor: NodeId, cfg: SensorConfig, readings: Readings,
                                   pingId: int, raw: string)
    requires 0 <= pingId < 9999
    ensures var request := PingRequest(control, DecimalText(pingId));
      var out := SensorReceive(FIXED_CONTROL_NODE, sensor, cfg, readings, control, raw, ToJson(request));
      && MeshSends(ControlUpdate(control, true, true, pingId)) == [SendBroadcast(request)]
      && |MeshSends(out)| == 1
      && MeshSends(out)[0].SendSingle?
      && MeshSends(out)[0].dest == FIXED_CONTROL_NODE
      && DecimalValue(PingId(ToJson(MeshSends(out)[0].env))) == pingId
  {
    DecimalRoundTrip(pingId);
  }

  // ---------------------------------------------------------------------
  // The nodes

  /** A sensor node (`FyrNode`). */
  class FyrNode {
    const nodeId: NodeId
    const config: SensorConfig
    var controlNode: NodeId
    var log: seq<Action>

    ghost predicate Valid()
      reads this
    {
      WellFormed(log, nodeId)
    }

    /** `CONTROLNODE` is a global with static storage: 0 until `begin()`. */
    constructor (nodeId: NodeId, config: SensorConfig)
      ensures Valid()
      ensures this.nodeId == nodeId && this.config == config
      ensures controlNode == 0 && log == []
    {
      this.nodeId := nodeId;
      this.config := config;
      controlNode := 0;
      log := [];
    }

    /** `FyrNode::begin`: bind to the fixed control node. */
    method Begin()
      requires Valid()
      modifies this
      ensures Valid()
      ensures controlNode == FIXED_CONTROL_NODE && log == old(log)
    {
      controlNode := FIXED_CONTROL_NODE;
    }

    method SensorNodeMessageRX(from: NodeId, raw: string, doc: Json, readings: Readings)
      requires Valid()
      modifies this
      ensures Valid()
      ensures controlNode == old(controlNode)
      ensures log == old(log) + SensorReceive(controlNode, nodeId, config, readings, from, raw, doc)
    {
      log := log + [Println(Serial, Text(raw))];
      var kind := MessageType(doc);
      if kind == PING_REQUEST {
        var pingID := PingId(doc);
        RespondPing(pingID, readings);
      }
    }

    method RespondPing(pingID: string, readings: Readings)
      requires Valid()
      modifies this
      ensures Valid()
      ensures controlNode == old(controlNode)
      ensures log == old(log) + Protocol.RespondPing(nodeId, controlNode, pingID, config, readings)
    {
      log := log + Protocol.RespondPing(nodeId, controlNode, pingID, config, readings);
    }

    method SensorNodeNewConnection(nodeID: NodeId)
      requires Valid()
      modifies this
      ensures Valid()
      ensures controlNode == old(controlNode)
      ensures log == old(log) + PrintUpdate(Serial, NewConnectionUpdate(nodeId, nodeID))
    {
      log := log + PrintUpdate(Serial, NewConnectionUpdate(nodeId, nodeID));
    }

    method SensorNodeChangedConnection()
      requires Valid()
      modifies this
      ensures Valid()
      ensures controlNode == old(controlNode)
      ensures log == old(log) + PrintUpdate(Serial, ChangedConnectionUpdate(nodeId))
    {
      log := log + PrintUpdate(Serial, ChangedConnectionUpdate(nodeId));
    }

    method SensorNodeNodeTimeAdjust(offset: Int32, nodeTime: Uint32)
      requires Valid()
      modifies this
      ensures Valid()
      ensures controlNode == old(controlNode)
      ensures log == old(log) + PrintUpdate(Serial, NodeTimeAdjustUpdate(nodeId, nodeTime, offset))
    {
      log := log + PrintUpdate(Serial, NodeTimeAdjustUpdate(nodeId, nodeTime, offset));
    }
  }

  /** The control node (`FyrNodeControl`). */
  class FyrNodeControl {
    const nodeId: NodeId
    const pinger: bool
    var controlNode: NodeId
    var log: seq<Action>

    ghost predicate Valid()
      reads this
    {
      WellFormed(log, nodeId)
    }

    constructor (nodeId: NodeId, pinger: bool)
      ensures Valid()
      ensures this.nodeId == nodeId && this.pinger == pinger
      ensures controlNode == 0 && log == []
    {
      this.nodeId := nodeId;
      this.pinger := pinger;
      controlNode := 0;
      log := [];
    }

    /** `FyrNodeControl::begin`: the control node is its own control node. */
    method Begin()
      requires Valid()
      modifies this
      ensures Valid()
      ensures controlNode == nodeId && log == old(log)
    {
      controlNode := nodeId;
    }

    method ControlNodeMessageRX(from: NodeId, raw: string)
      requires Valid()
      modifies this
      ensures Valid()
      ensures controlNode == old(controlNode)
      ensures log == old(log) + ControlReceive(from, raw)
    {
      log := log + [Println(SerialPort, Text(raw))];
    }

    method RequestPing(ping: string)
      requires Valid()
      modifies this
      ensures Valid()
      ensures controlNode == old(controlNode)
      ensures log == old(log) + Protocol.RequestPing(nodeId, ping, SerialPort)
    {
      log := log + Protocol.RequestPing(nodeId, ping, SerialPort);
    }

    /** `FyrNodeControl::update`, given what the pinger button and
        `random(0, 9999)` answered. */
    method Update(released: bool, pingId: int)
      requires Valid()
      requires 0 <= pingId < 9999
      modifies this
      ensures Valid()
      ensures controlNode == old(controlNode)
      ensures log == old(log) + ControlUpdate(nodeId, pinger, released, pingId)
    {
      if pinger {
        if released {
          var pingID := DecimalText(pingId);
          RequestPing(pingID);
        }
      }
    }

    method ControlNodeNewConnection(nodeID: NodeId)
      requires Valid()
      modifies this
      ensures Valid()
      ensures controlNode == old(controlNode)
      ensures log == old(log) + PrintUpdate(SerialPort, NewConnectionUpdate(nodeId, nodeID))
    {
      log := log + PrintUpdate(SerialPort, NewConnectionUpdate(nodeId, nodeID));
    }

    method ControlNodeChangedConnection()
      requires Valid()
      modifies this
      ensures Valid()
      ensures controlNode == old(controlNode)
      ensures log == old(log) + PrintUpdate(SerialPort, ChangedConnectionUpdate(nodeId))
    {
      log := log + PrintUpdate(SerialPort, ChangedConnectionUpdate(nodeId));
    }

    method ControlNodeNodeTimeAdjust(offset: Int32, nodeTime: Uint32)
      requires Valid()
      modifies this
      ensures Valid()
      ensures controlNode == old(controlNode)
      ensures log == old(log) + PrintUpdate(SerialPort, NodeTimeAdjustUpdate(nodeId, nodeTime, offset))
    {
      log := log + PrintUpdate(SerialPort, NodeTimeAdjustUpdate(nodeId, nodeTime, offset));
    }
  }
}
