/**
  The server's mutable state, `relayStates` and the device slot `esp32Client`, and
  the handlers that read and change them. Node.js runs every handler to completion
  on one event loop, so each handler is one method.
 */
module Server {

  import opened Optional
  import opened JsValues
  import opened Relays
  import opened Commands
  import opened StatusUpdates
  import opened Queries

  /** The `readyState` values of a `ws` connection. */
  datatype ReadyState = Connecting | Open | Closing | Closed

  /** A device connection handle: its state and every frame handed to `send` on it. */
  class Socket {
    var readyState: ReadyState
    var outbox: seq<Outbound>

    /** A connection as the `connection` event delivers it: open, nothing sent yet. */
    constructor ()
      ensures readyState == Open && outbox == []
    {
      readyState := Open;
      outbox := [];
    }

    /** `ws.send(frame)`: the frame is handed to the transport. */
    method Send(frame: Outbound)
      modifies this`outbox
      ensures outbox == old(outbox) + [frame]
    {
      outbox := outbox + [frame];
    }
  }

  class RelayServer {
    var relayStates: RelayStates
    var esp32Client: Socket?

    /** Start-up: every relay entry "off", no device connected. */
    constructor ()
      ensures relayStates == Initial() && esp32Client == null
    {
      relayStates := Initial();
      esp32Client := null;
    }

    /** The slot holds a connection whose `readyState` is OPEN. */
    predicate Ready()
      reads this, esp32Client
    {
      esp32Client != null && esp32Client.readyState == Open
    }

    /** `connection`: the new handle replaces whatever the slot held. */
    method OnConnection(ws: Socket)
      modifies this`esp32Client
      ensures esp32Client == ws
      ensures ws.readyState == Open ==> Ready()
    {
      esp32Client := ws;
    }

    /**
      `message` on any handle, current or superseded: a relay-status frame for a known
      node overwrites that node's entry; every other frame is dropped.
     */
    method OnMessage(ws: Socket, message: Option<Record>)
      modifies this`relayStates
      ensures relayStates == ApplyDeviceMessage(old(relayStates), message)
    {
      if message.None? {
        return;
      }
      var data := message.value;
      if Field(data, "type") == Str("relay-status") {
        var node, status, channel := Field(data, "node"), Field(data, "status"), Field(data, "channel");
        if node == Str("Node1") {
          if channel == Str("1") {
            relayStates := relayStates.(node1 := status);
          } else {
            relayStates := relayStates.(node1Bom := status);
          }
        } else if node == Str("Node2") {
          if channel == Str("1") {
            relayStates := relayStates.(node2 := status);
          } else {
            relayStates := relayStates.(node2Bom := status);
          }
        }
      }
    }

    /** `close` on any handle empties the slot, even when a newer handle is in it. */
    method OnClose(ws: Socket)
      modifies this`esp32Client
      ensures esp32Client == null
    {
      esp32Client := null;
    }

    /** `error`: only logged; the slot and the table are untouched. */
    method OnError(ws: Socket, err: Value)
      ensures unchanged(this)
    {
    }

    /**
      `/api/control`: reject an unknown command (400), then a missing or not-open
      device (500); otherwise write the table, hand one control frame to the current
      handle, and reply 200, or 500 when the send fails (the write stays).
     */
    method Control(command: Value, sendFails: bool) returns (reply: ControlReply)
      modifies this`relayStates, esp32Client
      ensures esp32Client == old(esp32Client)
      ensures var r := Dispatch(old(relayStates), command, old(Ready()), sendFails);
        && reply == r.reply
        && relayStates == r.table
        && (esp32Client != null ==>
              && esp32Client.readyState == old(esp32Client.readyState)
              && esp32Client.outbox == old(esp32Client.outbox) + (if r.sent.Some? then [r.sent.value] else []))
    {
      if !IsValidCommand(command) {
        return InvalidCommand;
      }
      if esp32Client == null || esp32Client.readyState != Open {
        return ClientNotReady;
      }
      var text := command.s;
      relayStates := ApplyCommand(relayStates, text);
      esp32Client.Send(ControlFrame(text));
      reply := if sendFails then SendFailed else Sent;
    }

    /**
      `/api/relay-status`: a body with a known node, status "on"/"off" and channel
      "1"/"2" overwrites that one entry; any other body is rejected with 400.
     */
    method RelayStatus(body: Record) returns (reply: StatusReply)
      modifies this`relayStates
      ensures (reply, relayStates) == HttpRelayStatus(old(relayStates), body)
    {
      if !ValidStatusBody(body) {
        return InvalidStatus;
      }
      var node, status, channel := Field(body, "node"), Field(body, "status"), Field(body, "channel");
      if node == Str("Node1") {
        if channel == Str("1") {
          relayStates := relayStates.(node1 := status);
        } else {
          relayStates := relayStates.(node1Bom := status);
        }
      } else {
        if channel == Str("1") {
          relayStates := relayStates.(node2 := status);
        } else {
          relayStates := relayStates.(node2Bom := status);
        }
      }
      reply := Updated;
    }

    /**
      `/api/sensors/node1` and `/api/sensors/node2`: on a database error 500; otherwise
      every returned row carries its stored columns and the node's current entries.
     */
    method SensorsNode(n: Node, query: DbResult) returns (response: NodeResponse)
      ensures response.NodeRows? <==> query.DbRows?
      ensures response.StatusCode() == (if query.DbError? then 500 else 200)
      ensures response.NodeRows? ==>
        && |response.readings| == |query.rows|
        && forall i :: 0 <= i < |response.readings| ==>
             && Stored(response.readings[i]) == query.rows[i]
             && response.readings[i].relay == Get(relayStates, Slot(n, Mist))
             && response.readings[i].relay2 == Get(relayStates, Slot(n, Pump))
    {
      if query.DbError? {
        return NodeDbError;
      }
      response := NodeRows(NodeReadings(relayStates, n, query.rows));
    }

    /**
      `/api/sensors/all`: the Node1 query's error first, then the Node2 query's;
      otherwise each node's rows with that node's current entries.
     */
    method SensorsAll(first: DbResult, second: DbResult) returns (response: AllResponse)
      ensures response.StatusCode() == (if first.DbError? || second.DbError? then 500 else 200)
      ensures first.DbError? ==> response == Node1DbError
      ensures first.DbRows? && second.DbError? ==> response == Node2DbError
      ensures first.DbRows? && second.DbRows? ==>
        && response.AllRows?
        && response.node1 == NodeReadings(relayStates, Node1, first.rows)
        && response.node2 == NodeReadings(relayStates, Node2, second.rows)
    {
      if first.DbError? {
        return Node1DbError;
      }
      if second.DbError? {
        return Node2DbError;
      }
      response := AllRows(NodeReadings(relayStates, Node1, first.rows),
                          NodeReadings(relayStates, Node2, second.rows));
    }
  }

  /**
    A reconnect followed by the old handle's late `close`: after the reconnect the
    control frame goes to the new handle only, and the stale `close` empties the slot,
    so the next control request is refused although the new handle is still open.
   */
  method SupersededHandleExample() returns (server: RelayServer, first: Socket, second: Socket, replies: seq<ControlReply>)
    ensures replies == [Sent, ClientNotReady]
    ensures first.outbox == [] && second.outbox == [ControlFrame("Node2:led on")]
    ensures second.readyState == Open && server.esp32Client == null
    ensures server.relayStates == RelayStates(Off, Off, On, Off)
  {
    server := new RelayServer();
    first := new Socket();
    second := new Socket();
    server.OnConnection(first);
    server.OnConnection(second);
    assert CommandText(Command(Node2, LedOn)) == "Node2:led on";
    DispatchWritesIntended(server.relayStates, Command(Node2, LedOn), false);
    var reply := server.Control(Str("Node2:led on"), false);
    assert reply == Sent;
    assert first.outbox == [] && second.outbox == [ControlFrame("Node2:led on")];
    assert Get(server.relayStates, Slot(Node2, Mist)) == On;
    SameEntries(server.relayStates, RelayStates(Off, Off, On, Off));
    server.OnClose(first);
    var again := server.Control(Str("Node2:led off"), false);
    assert again == ClientNotReady;
    replies := [reply, again];
    assert second.readyState == Open && second.outbox == [ControlFrame("Node2:led on")];
    assert Get(server.relayStates, Slot(Node2, Mist)) == On;
  }
}
