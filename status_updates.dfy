/**
  The two ways relay states reach the table from outside: a `relay-status`
  frame from the device over the WebSocket, and a POST to `/api/relay-status`.
 */
module StatusUpdates {

  import opened Optional
  import opened JsValues
  import opened Relays

  /**
    The WebSocket `message` handler's reading of a frame. `message` is the decoded
    frame: None when `JSON.parse` throws or the parsed value is not an object (every
    such frame leaves the table alone). The status is taken verbatim, whatever it is;
    channel "1" selects the mist entry and any other channel value the pump entry.
   */
  function DeviceReport(message: Option<Record>): Option<(Slot, Value)> {
    match message
    case None => None
    case Some(data) =>
      if Field(data, "type") != Str("relay-status") then None
      else
        var node := Field(data, "node");
        var channel := if Field(data, "channel") == Str("1") then Mist else Pump;
        if node == Str("Node1") then Some((Slot(Node1, channel), Field(data, "status")))
        else if node == Str("Node2") then Some((Slot(Node2, channel), Field(data, "status")))
        else None
  }

  /** The table after the device's frame has been handled. */
  function ApplyDeviceMessage(t: RelayStates, message: Option<Record>): (r: RelayStates)
    ensures message.None? ==> r == t
    ensures message.Some? && Field(message.value, "type") != Str("relay-status") ==> r == t
    ensures message.Some? && Field(message.value, "node") !in {Str("Node1"), Str("Node2")} ==> r == t
  {
    match DeviceReport(message)
    case None => t
    case Some((slot, v)) => Set(t, slot, v)
  }

  /**
    A relay-status frame for a known node overwrites exactly one entry with the
    frame's status, unvalidated: channel "1" the node's mist entry, any other
    channel the node's pump entry.
   */
  lemma DeviceReportWritesOneEntry(t: RelayStates, data: Record, n: Node)
    requires Field(data, "type") == Str("relay-status")
    requires Field(data, "node") == Str(if n == Node1 then "Node1" else "Node2")
    ensures var slot := Slot(n, if Field(data, "channel") == Str("1") then Mist else Pump);
      var r := ApplyDeviceMessage(t, Some(data));
      && Get(r, slot) == Field(data, "status")
      && forall other :: other != slot ==> Get(r, other) == Get(t, other)
  {
  }

  /** The replies of `/api/relay-status` and their HTTP status codes. */
  datatype StatusReply = Updated | InvalidStatus {
    function StatusCode(): int {
      match this
      case Updated => 200
      case InvalidStatus => 400
    }
  }

  /** The checks of `/api/relay-status`: node, status and channel must each be one of two strings. */
  predicate ValidStatusBody(body: Record) {
    && Field(body, "node") in [Str("Node1"), Str("Node2")]
    && Field(body, "status") in [Str("on"), Str("off")]
    && Field(body, "channel") in [Str("1"), Str("2")]
  }

  /** The entry a valid body names. */
  function BodySlot(body: Record): Slot {
    Slot(if Field(body, "node") == Str("Node1") then Node1 else Node2,
         if Field(body, "channel") == Str("1") then Mist else Pump)
  }

  /** One `/api/relay-status` request: the reply and the new table. */
  function HttpRelayStatus(t: RelayStates, body: Record): (r: (StatusReply, RelayStates))
    ensures r.0 == Updated <==> ValidStatusBody(body)
    ensures r.0.StatusCode() == (if ValidStatusBody(body) then 200 else 400)
    ensures r.0 == InvalidStatus ==> r.1 == t
    ensures r.0 == Updated ==>
      && OnOff(Get(r.1, BodySlot(body)))
      && Get(r.1, BodySlot(body)) == Field(body, "status")
      && forall other :: other != BodySlot(body) ==> Get(r.1, other) == Get(t, other)
    ensures AllOnOff(t) ==> AllOnOff(r.1)
  {
    if !ValidStatusBody(body) then (InvalidStatus, t)
    else (Updated, Set(t, BodySlot(body), Field(body, "status")))
  }
}
