/** The variant of the FyrNode library in which a sensor node finds its
    control node by handshake (fyrnode/src/fyrnode.cpp).

    The library's globals `CONTROLNODE`, `MESHCONNECTED` and
    `handshaketimer` are fields of the node objects below; every send and
    every `println` is appended to the node's `log`. The step functions
    (ConnectionTick, SensorReceive, ControlReceive) say what one call of
    the corresponding callback does, and the lemmas after them are about
    those functions. */
module Handshaking {
  import opened Json
  import opened Protocol

  /** An unbound sensor node counts this many ticks, then broadcasts. */
  const HANDSHAKE_INTERVAL: int := 10

  /** The ticks from one broadcast to the next: the count 0..10, then the send. */
  const ROUND: int := HANDSHAKE_INTERVAL + 1

  /** The sensor node's protocol state: `CONTROLNODE` (0 while unbound),
      `MESHCONNECTED` and `handshaketimer`. */
  datatype Globals = Globals(controlNode: NodeId, meshConnected: bool, handshakeTimer: int)

  /** The globals as the program starts. */
  const INITIAL: Globals := Globals(0, false, 0)

  /** A callback's effect: the new globals and what it did, in order. */
  datatype Step = Step(globals: Globals, out: seq<Action>)

  predicate TimerInRange(g: Globals)
  {
    0 <= g.handshakeTimer <= HANDSHAKE_INTERVAL
  }

  /** `checkConnection`, run once per `update()`. While bound it only
      refreshes the connectivity flag; while unbound it counts ticks
      modulo 11 and broadcasts one handshake request each time the count
      wraps. It never binds or unbinds. */
  function ConnectionTick(g: Globals, self: NodeId, isConnected: NodeId -> bool): (r: Step)
    ensures r.globals.controlNode == g.controlNode
    ensures TimerInRange(g) ==> TimerInRange(r.globals)
    ensures WellFormed(r.out, self)
    ensures g.controlNode > 0 ==>
      r.out == [] && r.globals.handshakeTimer == g.handshakeTimer && r.globals.meshConnected == isConnected(g.controlNode)
    ensures g.controlNode == 0 ==> r.globals.meshConnected == g.meshConnected
    ensures g.controlNode == 0 && TimerInRange(g) ==>
      r.globals.handshakeTimer == if g.handshakeTimer == HANDSHAKE_INTERVAL then 0 else g.handshakeTimer + 1
    ensures MeshSends(r.out) != [] <==> g.controlNode == 0 && g.handshakeTimer == HANDSHAKE_INTERVAL
    ensures MeshSends(r.out) != [] ==> MeshSends(r.out) == [SendBroadcast(HandshakeRequest(self))]
  {
    if g.controlNode > 0 then
      Step(g.(meshConnected := isConnected(g.controlNode)), [])
    else if g.handshakeTimer < HANDSHAKE_INTERVAL then
      Step(g.(handshakeTimer := g.handshakeTimer + 1), [])
    else if g.handshakeTimer == HANDSHAKE_INTERVAL then
      Step(g.(handshakeTimer := 0), RequestHandShake(self))
    else
      Step(g, [])
  }

  /** `messageRX`: the sensor node's receive callback. It prints the
      message, answers a `pingrequest` with one `pingresponse` to its
      control node, rebinds to `data.control` on a `handshakeresponse`
      (whatever it was bound to before, and to 0 when the field is
      missing), and ignores everything else. */
  function SensorReceive(g: Globals, self: NodeId, cfg: SensorConfig, readings: Readings,
                         from: NodeId, raw: string, doc: Json): (r: Step)
    ensures |r.out| >= 1 && r.out[0] == Println(Serial, Text(raw))
    ensures WellFormed(r.out, self)
    ensures r.globals.meshConnected == g.meshConnected && r.globals.handshakeTimer == g.handshakeTimer
    ensures MessageType(doc) == PING_REQUEST ==>
      r.globals == g &&
      MeshSends(r.out) == [SendSingle(g.controlNode, PingResponse(self, g.controlNode, PingId(doc), cfg, readings))]
    ensures MessageType(doc) == HANDSHAKE_RESPONSE ==>
      r.globals.controlNode == ControlId(doc) && MeshSends(r.out) == []
    ensures MessageType(doc) != PING_REQUEST && MessageType(doc) != HANDSHAKE_RESPONSE ==>
      r.globals == g && MeshSends(r.out) == []
  {
    var echo := [Println(Serial, Text(raw))];
    var kind := MessageType(doc);
    if kind == PING_REQUEST then
      var out := echo + RespondPing(self, g.controlNode, PingId(doc), cfg, readings);
      MeshSendsAppend(echo, RespondPing(self, g.controlNode, PingId(doc), cfg, readings));
      Step(g, out)
    else if kind == HANDSHAKE_RESPONSE then
      Step(g.(controlNode := ControlId(doc)), echo)
    else
      Step(g, echo)
  }

  /** `messageRXControl`: the control node's receive callback. It prints
      the message and answers every `handshakerequest` with one
      `handshakeresponse` to the requester that names itself; any other
      message causes no send. */
  function ControlReceive(self: NodeId, from: NodeId, raw: string, doc: Json): (out: seq<Action>)
    ensures |out| >= 1 && out[0] == Println(Serial, Text(raw))
    ensures WellFormed(out, self)
    ensures MessageType(doc) == HANDSHAKE_REQUEST ==>
      MeshSends(out) == [SendSingle(from, HandshakeResponse(self, from))]
    ensures MessageType(doc) != HANDSHAKE_REQUEST ==> MeshSends(out) == []
  {
    var echo := [Println(Serial, Text(raw))];
    if MessageType(doc) == HANDSHAKE_REQUEST then
      MeshSendsAppend(echo, RespondHandShake(self, from));
      echo + RespondHandShake(self, from)
    else
      echo
  }

  /** `FyrNodeControl::update` after `mesh.update()`: with `PINGER` set, a
      pinger release broadcasts one ping (`checkPINGER`). */
  function ControlUpdate(self: NodeId, pinger: bool, released: bool, pingId: int): (out: seq<Action>)
    requires 0 <= pingId < 9999
    ensures WellFormed(out, self)
    ensures pinger && released ==> MeshSends(out) == [SendBroadcast(PingRequest(self, DecimalText(pingId)))]
    ensures !(pinger && released) ==> out == []
  {
    if pinger then PingerPress(self, released, pingId, Serial) else []
  }

  /** The level `setConnectionLED` drives pin 16 to: low (the LED lit)
      exactly when the node is connected to its control node. */
  datatype PinLevel = Low | High

  function ConnectionLED(connected: bool): (level: PinLevel)
    ensures level == Low <==> connected
  {
    if connected then Low else High
  }

  // ---------------------------------------------------------------------
  // Several ticks

  /** `n` consecutive calls of `checkConnection`, the transport answering
      connectivity queries with `isConnected`. */
  function Ticks(g: Globals, self: NodeId, isConnected: NodeId -> bool, n: nat): (r: Step)
    ensures r.globals.controlNode == g.controlNode
    decreases n
  {
    if n == 0 then Step(g, [])
    else
      var first := ConnectionTick(g, self, isConnected);
      var rest := Ticks(first.globals, self, isConnected, n - 1);
      Step(rest.globals, first.out + rest.out)
  }

  /** `k` copies of `a`. */
  function Repeat(a: Action, k: nat): (r: seq<Action>)
    ensures |r| == k
    ensures forall i :: 0 <= i < k ==> r[i] == a
  {
    if k == 0 then [] else [a] + Repeat(a, k - 1)
  }

  /** An unbound node that has counted to `t` and is ticked `n` more times,
      where `t + n` is `q` full rounds and `rem` ticks more, has counted to
      `rem` and has broadcast exactly `q` handshake requests. */
  lemma {:induction false} UnboundRounds(g: Globals, self: NodeId, isConnected: NodeId -> bool, n: nat, q: nat, rem: nat)
    requires g.controlNode == 0 && TimerInRange(g)
    requires g.handshakeTimer + n == 11 * q + rem && rem < 11
    ensures var r := Ticks(g, self, isConnected, n);
      && r.globals == g.(handshakeTimer := rem)
      && MeshSends(r.out) == Repeat(SendBroadcast(HandshakeRequest(self)), q)
    decreases n, 1
  {
    if n > 0 {
      if g.handshakeTimer < HANDSHAKE_INTERVAL {
        UnboundCount(g, self, isConnected, n, q, rem);
      } else {
        UnboundWrap(g, self, isConnected, n, q, rem);
      }
    }
  }

  /** The inductive step of UnboundRounds for a tick that only counts. */
  lemma {:induction false} UnboundCount(g: Globals, self: NodeId, isConnected: NodeId -> bool, n: nat, q: nat, rem: nat)
    requires g.controlNode == 0 && 0 <= g.handshakeTimer < HANDSHAKE_INTERVAL
    requires n > 0 && g.handshakeTimer + n == 11 * q + rem && rem < 11
    ensures var r := Ticks(g, self, isConnected, n);
      && r.globals == g.(handshakeTimer := rem)
      && MeshSends(r.out) == Repeat(SendBroadcast(HandshakeRequest(self)), q)
    decreases n, 0
  {
    var first := ConnectionTick(g, self, isConnected);
    var rest := Ticks(first.globals, self, isConnected, n - 1);
    MeshSendsAppend(first.out, rest.out);
    assert first.out == [];
    UnboundRounds(first.globals, self, isConnected, n - 1, q, rem);
  }

  /** The inductive step of UnboundRounds for the tick that broadcasts. */
  lemma {:induction false} UnboundWrap(g: Globals, self: NodeId, isConnected: NodeId -> bool, n: nat, q: nat, rem: nat)
    requires g.controlNode == 0 && g.handshakeTimer == HANDSHAKE_INTERVAL
    requires n > 0 && g.handshakeTimer + n == 11 * q + rem && rem < 11
    ensures var r := Ticks(g, self, isConnected, n);
      && r.globals == g.(handshakeTimer := rem)
      && MeshSends(r.out) == Repeat(SendBroadcast(HandshakeRequest(self)), q)
    decreases n, 0
  {
    var first := ConnectionTick(g, self, isConnected);
    var rest := Ticks(first.globals, self, isConnected, n - 1);
    MeshSendsAppend(first.out, rest.out);
    var request := SendBroadcast(HandshakeRequest(self));
    assert MeshSends(first.out) == [request];
    UnboundRounds(first.globals, self, isConnected, n - 1, q - 1, rem);
    assert Repeat(request, q) == [request] + Repeat(request, q - 1);
  }

  /** The same with the rounds counted out: after `n` ticks from `t` the
      counter is at `(t + n) % ROUND` and `(t + n) / ROUND` requests have gone
      out, one every 11 ticks, the first after `11 - t`. */
  lemma UnboundCadence(g: Globals, self: NodeId, isConnected: NodeId -> bool, n: nat)
    requires g.controlNode == 0 && TimerInRange(g)
    ensures var r := Ticks(g, self, isConnected, n);
      && r.globals == g.(handshakeTimer := (g.handshakeTimer + n) % ROUND)
      && MeshSends(r.out) == Repeat(SendBroadcast(HandshakeRequest(self)), (g.handshakeTimer + n) / ROUND)
  {
    UnboundRounds(g, self, isConnected, n, (g.handshakeTimer + n) / ROUND, (g.handshakeTimer + n) % ROUND);
  }

  /** From start-up, ten ticks send nothing and the eleventh broadcasts
      exactly one handshake request. */
  lemma FirstHandshakeOnEleventhTick(self: NodeId, isConnected: NodeId -> bool)
    ensures MeshSends(Ticks(INITIAL, self, isConnected, 10).out) == []
    ensures MeshSends(Ticks(INITIAL, self, isConnected, 11).out) == [SendBroadcast(HandshakeRequest(self))]
    ensures Ticks(INITIAL, self, isConnected, 11).globals == INITIAL
  {
    UnboundCadence(INITIAL, self, isConnected, 10);
    UnboundCadence(INITIAL, self, isConnected, 11);
  }

  /** A bound node ticked any number of times sends nothing and keeps its
      binding and its counter: it never unbinds by itself. */
  lemma {:induction false} BoundStaysQuiet(g: Globals, self: NodeId, isConnected: NodeId -> bool, n: nat)
    requires g.controlNode > 0
    ensures var r := Ticks(g, self, isConnected, n);
      && r.out == []
      && r.globals.controlNode == g.controlNode
      && r.globals.handshakeTimer == g.handshakeTimer
      && r.globals.meshConnected == if n == 0 then g.meshConnected else isConnected(g.controlNode)
    decreases n
  {
    if n > 0 {
      BoundStaysQuiet(ConnectionTick(g, self, isConnected).globals, self, isConnected, n - 1);
    }
  }

  /** Whatever the ticks, the counter never leaves 0..10. */
  lemma {:induction false} TicksKeepTimerInRange(g: Globals, self: NodeId, isConnected: NodeId -> bool, n: nat)
    requires TimerInRange(g)
    ensures TimerInRange(Ticks(g, self, isConnected, n).globals)
    decreases n
  {
    if n > 0 {
      TicksKeepTimerInRange(ConnectionTick(g, self, isConnected).globals, self, isConnected, n - 1);
    }
  }

  // ---------------------------------------------------------------------
  // The two roles together

  /** One handshake end to end: an unbound sensor node at the end of its
      count broadcasts a request; the control node, receiving that
      envelope, answers the sensor node alone; the sensor node, receiving
      the answer, is bound to the control node, and from then on its ticks
      send nothing. */
  lemma HandshakeBinds(sensor: NodeId, control: NodeId, g: Globals, cfg: SensorConfig, readings: Readings,
                       isConnected: NodeId -> bool, rawRequest: string, rawResponse: string)
    requires g.controlNode == 0 && g.handshakeTimer == HANDSHAKE_INTERVAL
    requires control > 0
    ensures var tick := ConnectionTick(g, sensor, isConnected);
      var request := HandshakeRequest(sensor);
      var answer := ControlReceive(control, sensor, rawRequest, ToJson(request));
      var response := HandshakeResponse(control, sensor);
      var bound := SensorReceive(tick.globals, sensor, cfg, readings, control, rawResponse, ToJson(response));
      && MeshSends(tick.out) == [SendBroadcast(request)]
      && MeshSends(answer) == [SendSingle(sensor, response)]
      && bound.globals.controlNode == control
      && ConnectionTick(bound.globals, sensor, isConnected).out == []
  {
  }

  /** A `handshakeresponse` without `data.control` reads as control node 0,
      so a bound node becomes unbound again and resumes counting towards
      its next broadcast; `MESHCONNECTED` keeps its last value. */
  lemma MissingControlUnbinds(g: Globals, self: NodeId, cfg: SensorConfig, readings: Readings,
                              from: NodeId, raw: string, doc: Json, isConnected: NodeId -> bool)
    requires MessageType(doc) == HANDSHAKE_RESPONSE
    requires Member(Member(doc, "data"), "control") == Null
    requires TimerInRange(g)
    ensures var r := SensorReceive(g, self, cfg, readings, from, raw, doc);
      && r.globals == g.(controlNode := 0)
      && ConnectionTick(r.globals, self, isConnected).globals.meshConnected == g.meshConnected
  {
  }

  /** A ping end to end: the control node's pinger broadcasts an id; a
      sensor node receiving that envelope answers its control node with a
      `pingresponse` whose `data.ping` reads back as the same id. */
  lemma PingEchoed(control: NodeId, g: Globals, sensor: NodeId, cfg: SensorConfig, readings: Readings,
                   pingId: int, raw: string)
    requires 0 <= pingId < 9999
    ensures var request := PingRequest(control, DecimalText(pingId));
      var r := SensorReceive(g, sensor, cfg, readings, control, raw, ToJson(request));
      && MeshSends(ControlUpdate(control, true, true, pingId)) == [SendBroadcast(request)]
      && |MeshSends(r.out)| == 1
      && MeshSends(r.out)[0].SendSingle?
      && MeshSends(r.out)[0].dest == g.controlNode
      && PingId(ToJson(MeshSends(r.out)[0].env)) == DecimalText(pingId)
      && DecimalValue(PingId(ToJson(MeshSends(r.out)[0].env))) == pingId
  {
    DecimalRoundTrip(pingId);
  }

  // ---------------------------------------------------------------------
  // The nodes

  /** A sensor node (`FyrNode`). */
  class FyrNode {
    const nodeId: NodeId
    const config: SensorConfig
    var controlNode: NodeId
    var meshConnected: bool
    var handshakeTimer: int
    var led: PinLevel
    var log: seq<Action>

    function State(): Globals
      reads this
    {
      Globals(controlNode, meshConnected, handshakeTimer)
    }

    ghost predicate Valid()
      reads this
    {
      TimerInRange(State()) && WellFormed(log, nodeId)
    }

    /** The constructor registers the callbacks; the globals start unbound. */
    constructor (nodeId: NodeId, config: SensorConfig)
      ensures Valid()
      ensures this.nodeId == nodeId && this.config == config
      ensures State() == INITIAL && log == []
    {
      this.nodeId := nodeId;
      this.config := config;
      controlNode := 0;
      meshConnected := false;
      handshakeTimer := 0;
      led := High;
      log := [];
    }

    method CheckConnection(isConnected: NodeId -> bool)
      requires Valid()
      modifies this
      ensures Valid()
      ensures var r := ConnectionTick(old(State()), nodeId, isConnected);
        State() == r.globals && log == old(log) + r.out
      ensures led == old(led)
    {
      if controlNode > 0 {
        meshConnected := isConnected(controlNode);
      } else if handshakeTimer < HANDSHAKE_INTERVAL {
        handshakeTimer := handshakeTimer + 1;
      } else if handshakeTimer == HANDSHAKE_INTERVAL {
        RequestHandShake();
        handshakeTimer := 0;
      }
    }

    method SetConnectionLED()
      requires Valid()
      modifies this
      ensures Valid()
      ensures led == ConnectionLED(meshConnected)
      ensures State() == old(State()) && log == old(log)
    {
      if meshConnected {
        led := Low;
      } else {
        led := High;
      }
    }

    /** `FyrNode::update`: the connection check, then the LED. The
        callbacks `mesh.update()` fires are the receive methods below. */
    method Update(isConnected: NodeId -> bool)
      requires Valid()
      modifies this
      ensures Valid()
      ensures var r := ConnectionTick(old(State()), nodeId, isConnected);
        State() == r.globals && log == old(log) + r.out
      ensures led == ConnectionLED(meshConnected)
    {
      CheckConnection(isConnected);
      SetConnectionLED();
    }

    method MessageRX(from: NodeId, raw: string, doc: Json, readings: Readings)
      requires Valid()
      modifies this
      ensures Valid()
      ensures var r := SensorReceive(old(State()), nodeId, config, readings, from, raw, doc);
        State() == r.globals && log == old(log) + r.out
      ensures led == old(led)
    {
      log := log + [Println(Serial, Text(raw))];
      var kind := MessageType(doc);
      if kind == PING_REQUEST {
        var pingID := PingId(doc);
        RespondPing(pingID, readings);
      } else if kind == HANDSHAKE_RESPONSE {
        var control := ControlId(doc);
        controlNode := control;
      }
    }

    method RespondPing(pingID: string, readings: Readings)
      requires Valid()
      modifies this
      ensures Valid()
      ensures State() == old(State()) && led == old(led)
      ensures log == old(log) + Protocol.RespondPing(nodeId, controlNode, pingID, config, readings)
    {
      log := log + Protocol.RespondPing(nodeId, controlNode, pingID, config, readings);
    }

    method RequestHandShake()
      requires Valid()
      modifies this
      ensures Valid()
      ensures State() == old(State()) && led == old(led)
      ensures log == old(log) + Protocol.RequestHandShake(nodeId)
    {
      log := log + Protocol.RequestHandShake(nodeId);
    }

    method NewConnection(nodeID: NodeId)
      requires Valid()
      modifies this
      ensures Valid()
      ensures State() == old(State()) && led == old(led)
      ensures log == old(log) + PrintUpdate(Serial, NewConnectionUpdate(nodeId, nodeID))
    {
      log := log + PrintUpdate(Serial, NewConnectionUpdate(nodeId, nodeID));
    }

    method ChangedConnection()
      requires Valid()
      modifies this
      ensures Valid()
      ensures State() == old(State()) && led == old(led)
      ensures log == old(log) + PrintUpdate(Serial, ChangedConnectionUpdate(nodeId))
    {
      log := log + PrintUpdate(Serial, ChangedConnectionUpdate(nodeId));
    }

    method NodeTimeAdjust(offset: Int32, nodeTime: Uint32)
      requires Valid()
      modifies this
      ensures Valid()
      ensures State() == old(State()) && led == old(led)
      ensures log == old(log) + PrintUpdate(Serial, NodeTimeAdjustUpdate(nodeId, nodeTime, offset))
    {
      log := log + PrintUpdate(Serial, NodeTimeAdjustUpdate(nodeId, nodeTime, offset));
    }
  }

  /** The control node (`FyrNodeControl`). */
  class FyrNodeControl {
    const nodeId: NodeId
    const pinger: bool
    var controlNode: NodeId
    var log: seq<Action>

    ghost predicate Valid()
      reads this
    {
      WellFormed(log, nodeId)
    }

    constructor (nodeId: NodeId, pinger: bool)
      ensures Valid()
      ensures this.nodeId == nodeId && this.pinger == pinger
      ensures controlNode == 0 && log == []
    {
      this.nodeId := nodeId;
      this.pinger := pinger;
      controlNode := 0;
      log := [];
    }

    /** `FyrNodeControl::begin`: the control node is its own control node. */
    method Begin()
      requires Valid()
      modifies this
      ensures Valid()
      ensures controlNode == nodeId && log == old(log)
    {
      controlNode := nodeId;
    }

    method MessageRXControl(from: NodeId, raw: string, doc: Json)
      requires Valid()
      modifies this
      ensures Valid()
      ensures controlNode == old(controlNode)
      ensures log == old(log) + ControlReceive(nodeId, from, raw, doc)
    {
      log := log + [Println(Serial, Text(raw))];
      var kind := MessageType(doc);
      if kind == HANDSHAKE_REQUEST {
        RespondHandShake(from);
      }
    }

    method RespondHandShake(from: NodeId)
      requires Valid()
      modifies this
      ensures Valid()
      ensures controlNode == old(controlNode)
      ensures log == old(log) + Protocol.RespondHandShake(nodeId, from)
    {
      log := log + Protocol.RespondHandShake(nodeId, from);
    }

    /** `checkPINGER`, given what the button and `random(0, 9999)` answered. */
    method CheckPinger(released: bool, pingId: int)
      requires Valid()
      requires 0 <= pingId < 9999
      modifies this
      ensures Valid()
      ensures controlNode == old(controlNode)
      ensures log == old(log) + PingerPress(nodeId, released, pingId, Serial)
    {
      if released {
        var ping := DecimalText(pingId);
        log := log + RequestPing(nodeId, ping, Serial);
      }
    }

    /** `FyrNodeControl::update`; `readIncoming` is not part of this model. */
    method Update(released: bool, pingId: int)
      requires Valid()
      requires 0 <= pingId < 9999
      modifies this
      ensures Valid()
      ensures controlNode == old(controlNode)
      ensures log == old(log) + ControlUpdate(nodeId, pinger, released, pingId)
    {
      if pinger {
        CheckPinger(released, pingId);
      }
    }

    method NewConnection(nodeID: NodeId)
      requires Valid()
      modifies this
      ensures Valid()
      ensures controlNode == old(controlNode)
      ensures log == old(log) + PrintUpdate(Serial, NewConnectionUpdate(nodeId, nodeID))
    {
      log := log + PrintUpdate(Serial, NewConnectionUpdate(nodeId, nodeID));
    }

    method ChangedConnection()
      requires Valid()
      modifies this
      ensures Valid()
      ensures controlNode == old(controlNode)
      ensures log == old(log) + PrintUpdate(Serial, ChangedConnectionUpdate(nodeId))
    {
      log := log + PrintUpdate(Serial, ChangedConnectionUpdate(nodeId));
    }

    method NodeTimeAdjust(offset: Int32, nodeTime: Uint32)
      requires Valid()
      modifies this
      ensures Valid()
      ensures controlNode == old(controlNode)
      ensures log == old(log) + PrintUpdate(Serial, NodeTimeAdjustUpdate(nodeId, nodeTime, offset))
    {
      log := log + PrintUpdate(Serial, NodeTimeAdjustUpdate(nodeId, nodeTime, offset));
    }
  }
}
