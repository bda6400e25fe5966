/**
  The in-memory relay table `relayStates`: one entry per node and channel.
  Channel 1 of a node drives its mist sprayer, channel 2 its water pump.
 */
module Relays {

  import opened JsValues

  datatype Node = Node1 | Node2

  /** Channel 1 is the mist sprayer (`nodeN`), channel 2 the pump (`nodeN_bom`). */
  datatype Channel = Mist | Pump

  /** One entry of the table, keyed by node and channel. */
  datatype Slot = Slot(node: Node, channel: Channel)

  /**
    The four entries of `relayStates`, named as in server.js. An entry holds whatever
    value its last writer stored; it is not restricted to "on" and "off".
   */
  datatype RelayStates = RelayStates(node1: Value, node1Bom: Value, node2: Value, node2Bom: Value)

  const On: Value := Str("on")
  const Off: Value := Str("off")

  /** The entry for a slot (every slot has one). */
  function Get(t: RelayStates, slot: Slot): Value {
    match slot
    case Slot(Node1, Mist) => t.node1
    case Slot(Node1, Pump) => t.node1Bom
    case Slot(Node2, Mist) => t.node2
    case Slot(Node2, Pump) => t.node2Bom
  }

  /** Assignment to one entry: that entry becomes v, every other entry keeps its value. */
  function Set(t: RelayStates, slot: Slot, v: Value): (r: RelayStates)
    ensures Get(r, slot) == v
    ensures forall other :: other != slot ==> Get(r, other) == Get(t, other)
  {
    match slot
    case Slot(Node1, Mist) => t.(node1 := v)
    case Slot(Node1, Pump) => t.(node1Bom := v)
    case Slot(Node2, Mist) => t.(node2 := v)
    case Slot(Node2, Pump) => t.(node2Bom := v)
  }

  /** The table at start-up: every entry is "off". */
  function Initial(): (t: RelayStates)
    ensures forall slot :: Get(t, slot) == Off
  {
    RelayStates(Off, Off, Off, Off)
  }

  predicate OnOff(v: Value) {
    v == On || v == Off
  }

  /** Every entry of the table is "on" or "off". */
  ghost predicate AllOnOff(t: RelayStates) {
    forall slot :: OnOff(Get(t, slot))
  }

  /** Two tables that agree on every slot are the same table. */
  lemma SameEntries(a: RelayStates, b: RelayStates)
    requires forall slot :: Get(a, slot) == Get(b, slot)
    ensures a == b
  {
    assert Get(a, Slot(Node1, Mist)) == Get(b, Slot(Node1, Mist));
    assert Get(a, Slot(Node1, Pump)) == Get(b, Slot(Node1, Pump));
    assert Get(a, Slot(Node2, Mist)) == Get(b, Slot(Node2, Mist));
    assert Get(a, Slot(Node2, Pump)) == Get(b, Slot(Node2, Pump));
  }
}
