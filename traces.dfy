/**
  Sequences of handler runs against the relay table: what stays true across
  control requests, device frames and relay-status posts.
 */
module Traces {

  import opened Optional
  import opened JsValues
  import opened Relays
  import opened Commands
  import opened StatusUpdates

  /** One handler run that can touch the table. */
  datatype Event =
    | ControlRequest(command: Value, ready: bool, sendFails: bool)
    | DeviceFrame(message: Option<Record>)
    | StatusPost(body: Record)

  function Step(t: RelayStates, e: Event): RelayStates {
    match e
    case ControlRequest(command, ready, sendFails) => Dispatch(t, command, ready, sendFails).table
    case DeviceFrame(message) => ApplyDeviceMessage(t, message)
    case StatusPost(body) => HttpRelayStatus(t, body).1
  }

  /** The table after the events, in order. */
  function Run(t: RelayStates, events: seq<Event>): RelayStates
    decreases |events|
  {
    if events == [] then t else Run(Step(t, events[0]), events[1..])
  }

  /** The event cannot store anything but "on" or "off": only a device frame can. */
  predicate StoresOnOff(e: Event) {
    e.DeviceFrame? ==> DeviceReport(e.message).None? || OnOff(DeviceReport(e.message).value.1)
  }

  /** Every write the control path makes is "on" or "off". */
  lemma ControlStoresOnOff(t: RelayStates, command: Value, ready: bool, sendFails: bool)
    requires AllOnOff(t)
    ensures AllOnOff(Dispatch(t, command, ready, sendFails).table)
  {
  }

  lemma StepStoresOnOff(t: RelayStates, e: Event)
    requires AllOnOff(t) && StoresOnOff(e)
    ensures AllOnOff(Step(t, e))
  {
  }

  /**
    From a table of "on"/"off" entries, control requests, relay-status posts and
    device frames that report "on"/"off" keep every entry "on" or "off".
   */
  lemma {:induction false} OnOffPreserved(t: RelayStates, events: seq<Event>)
    requires AllOnOff(t)
    requires forall i :: 0 <= i < |events| ==> StoresOnOff(events[i])
    ensures AllOnOff(Run(t, events))
    decreases |events|
  {
    if events != [] {
      StepStoresOnOff(t, events[0]);
      OnOffPreserved(Step(t, events[0]), events[1..]);
    }
  }

  /** In particular, that holds from start-up. */
  lemma {:induction false} OnOffFromStart(events: seq<Event>)
    requires forall i :: 0 <= i < |events| ==> StoresOnOff(events[i])
    ensures AllOnOff(Run(Initial(), events))
  {
    OnOffPreserved(Initial(), events);
  }

  /**
    The device path does not validate: a relay-status frame for Node1 without a
    status or a channel stores `undefined` in Node1's pump entry.
   */
  lemma DeviceFrameCanStoreUndefined()
    ensures var message := Some(map["type" := Str("relay-status"), "node" := Str("Node1")]);
      && Get(Step(Initial(), DeviceFrame(message)), Slot(Node1, Pump)) == Undefined
      && !AllOnOff(Step(Initial(), DeviceFrame(message)))
  {
  }

  /** Dispatches of two commands that name different entries can be taken in either order. */
  lemma DistinctCommandsCommute(t: RelayStates, c1: Command, c2: Command, f1: bool, f2: bool)
    requires Intended(c1).Some? && Intended(c2).Some? && Intended(c1).value.0 != Intended(c2).value.0
    ensures var x1, x2 := Str(CommandText(c1)), Str(CommandText(c2));
      Dispatch(Dispatch(t, x1, true, f1).table, x2, true, f2).table
      == Dispatch(Dispatch(t, x2, true, f2).table, x1, true, f1).table
  {
    var x1, x2 := Str(CommandText(c1)), Str(CommandText(c2));
    var a1 := Dispatch(t, x1, true, f1).table;
    var a := Dispatch(a1, x2, true, f2).table;
    var b2 := Dispatch(t, x2, true, f2).table;
    var b := Dispatch(b2, x1, true, f1).table;
    DispatchWritesIntended(t, c1, f1);
    DispatchWritesIntended(a1, c2, f2);
    DispatchWritesIntended(t, c2, f2);
    DispatchWritesIntended(b2, c1, f1);
    SameEntries(a, b);
  }

  /** Sending the same command twice leaves the table as sending it once. */
  lemma DispatchIdempotent(t: RelayStates, c: Command, f1: bool, f2: bool)
    ensures var x := Str(CommandText(c));
      Dispatch(Dispatch(t, x, true, f1).table, x, true, f2).table == Dispatch(t, x, true, f1).table
  {
  }

  /**
    The device has the last word: whatever requests and frames came before, a frame
    `{type: relay-status, node: Node2, channel: "2", status: "off"}` leaves Node2's pump
    entry "off" and every other entry as the earlier events left it.
   */
  lemma DeviceFrameOverridesDispatch(t: RelayStates, events: seq<Event>)
    ensures var frame := map["type" := Str("relay-status"), "node" := Str("Node2"),
                             "channel" := Str("2"), "status" := Off];
      var before := Run(t, events);
      var after := Run(t, events + [DeviceFrame(Some(frame))]);
      && Get(after, Slot(Node2, Pump)) == Off
      && forall other :: other != Slot(Node2, Pump) ==> Get(after, other) == Get(before, other)
  {
    var frame := map["type" := Str("relay-status"), "node" := Str("Node2"),
                     "channel" := Str("2"), "status" := Off];
    RunAppend(t, events, DeviceFrame(Some(frame)));
    DeviceReportWritesOneEntry(Run(t, events), frame, Node2);
  }

  /** Running one more event after a sequence is one more step. */
  lemma {:induction false} RunAppend(t: RelayStates, events: seq<Event>, e: Event)
    ensures Run(t, events + [e]) == Step(Run(t, events), e)
    decreases |events|
  {
    if events != [] {
      assert (events + [e])[1..] == events[1..] + [e];
      RunAppend(Step(t, events[0]), events[1..], e);
    }
  }

  /** "Node1:bom on" then "Node1:bom off" then the unknown "Node3:led on", all with the device ready. */
  lemma PumpScenario(t: RelayStates)
    ensures var afterOn := Dispatch(t, Str("Node1:bom on"), true, false);
      var afterOff := Dispatch(afterOn.table, Str("Node1:bom off"), true, false);
      var rejected := Dispatch(afterOff.table, Str("Node3:led on"), true, false);
      && afterOn.reply == Sent && Get(afterOn.table, Slot(Node1, Pump)) == On
      && afterOff.reply == Sent && Get(afterOff.table, Slot(Node1, Pump)) == Off
      && rejected.reply == InvalidCommand && rejected.table == afterOff.table && rejected.sent == None
  {
    var on, off := Command(Node1, BomOn), Command(Node1, BomOff);
    DispatchWritesIntended(t, on, false);
    DispatchWritesIntended(Dispatch(t, Str(CommandText(on)), true, false).table, off, false);
    assert CommandText(on) == "Node1:bom on";
    assert CommandText(off) == "Node1:bom off";
    assert "Node3:led on" !in ValidCommands;
  }
}
