/**
  The `/api/control` handler: the closed command vocabulary, the substring-based
  mapping from a command to the relay entry it writes, and dispatch as a whole
  (validate, check the device is ready, write the table, send one message).
 */
module Commands {

  import opened Optional
  import opened JsValues
  import opened Relays
  import opened Strings

  /** The ten accepted command strings, in the order the handler lists them. */
  const ValidCommands: seq<string> := [
    "Node1:led on", "Node1:led off", "Node1:bom on", "Node1:bom off", "Node1:auto",
    "Node2:led on", "Node2:led off", "Node2:bom on", "Node2:bom off", "Node2:auto"
  ]

  /** `validCommands.includes(command)`: only a string equal to a listed command passes. */
  predicate IsValidCommand(command: Value) {
    command.Str? && command.s in ValidCommands
  }

  /** What a command asks for: "led" is channel 1 (mist), "bom" is channel 2 (pump). */
  datatype Action = LedOn | LedOff | BomOn | BomOff | Auto

  datatype Command = Command(node: Node, action: Action)

  function NodeName(n: Node): string {
    match n
    case Node1 => "Node1"
    case Node2 => "Node2"
  }

  function ActionName(a: Action): string {
    match a
    case LedOn => "led on"
    case LedOff => "led off"
    case BomOn => "bom on"
    case BomOff => "bom off"
    case Auto => "auto"
  }

  /** The wire form "<Node>:<action>" of a command. */
  function CommandText(c: Command): string {
    NodeName(c.node) + ":" + ActionName(c.action)
  }

  /** The position of a command's wire form in the command list. */
  function Position(c: Command): nat {
    (if c.node == Node1 then 0 else 5) +
    match c.action
    case LedOn => 0
    case LedOff => 1
    case BomOn => 2
    case BomOff => 3
    case Auto => 4
  }

  /** The command listed at position k. */
  function Listed(k: nat): Command
    requires k < 10
  {
    Command(if k < 5 then Node1 else Node2, [LedOn, LedOff, BomOn, BomOff, Auto][k % 5])
  }

  lemma ListedAt(k: nat)
    requires k < 10
    ensures CommandText(Listed(k)) == ValidCommands[k]
  {
  }

  /** The command list is exactly the wire forms of the ten commands. */
  lemma ValidCommandsAreVocabulary(s: string)
    ensures s in ValidCommands <==> exists c :: CommandText(c) == s
  {
    if s in ValidCommands {
      var k :| 0 <= k < |ValidCommands| && ValidCommands[k] == s;
      ListedAt(k);
    }
    if c :| CommandText(c) == s {
      assert Listed(Position(c)) == c;
      ListedAt(Position(c));
    }
  }

  /** The entry a command is meant to set and the value it sets, or None for "auto". */
  function Intended(c: Command): Option<(Slot, Value)> {
    match c.action
    case LedOn => Some((Slot(c.node, Mist), On))
    case LedOff => Some((Slot(c.node, Mist), Off))
    case BomOn => Some((Slot(c.node, Pump), On))
    case BomOff => Some((Slot(c.node, Pump), Off))
    case Auto => None
  }

  /** The handler's node test: the command's prefix picks the node's entries. */
  function RelayWrite(command: string): Option<(Slot, Value)> {
    if StartsWith(command, "Node1:") then ChannelWrite(Node1, command)
    else if StartsWith(command, "Node2:") then ChannelWrite(Node2, command)
    else None
  }

  /** The handler's channel test: "led" before "bom", then "led on" / "bom on" picks the state. */
  function ChannelWrite(n: Node, command: string): Option<(Slot, Value)> {
    if Includes(command, "led") then
      Some((Slot(n, Mist), if Includes(command, "led on") then On else Off))
    else if Includes(command, "bom") then
      Some((Slot(n, Pump), if Includes(command, "bom on") then On else Off))
    else None
  }

  /** The prefix test picks out the node a command names. */
  lemma PrefixPicksNode(c: Command)
    ensures StartsWith(CommandText(c), "Node1:") <==> c.node == Node1
    ensures StartsWith(CommandText(c), "Node2:") <==> c.node == Node2
  {
    var s := CommandText(c);
    assert s[..6] == NodeName(c.node) + ":";
    assert s[..6][4] == if c.node == Node1 then '1' else '2';
  }

  /** The substring tests pick out the channel and state an action names. */
  lemma SubstringsPickChannel(c: Command)
    ensures ChannelWrite(c.node, CommandText(c)) == Intended(c)
  {
    var s := CommandText(c);
    assert s[6..] == ActionName(c.action);
    match c.action
    case LedOn =>
      IncludesAt(s, "led", 6);
      IncludesAt(s, "led on", 6);
    case LedOff =>
      IncludesAt(s, "led", 6);
      MissingCharacter(s, "led on", 5);
    case BomOn =>
      MissingCharacter(s, "led", 0);
      IncludesAt(s, "bom", 6);
      IncludesAt(s, "bom on", 6);
    case BomOff =>
      MissingCharacter(s, "led", 0);
      IncludesAt(s, "bom", 6);
      MissingCharacter(s, "bom on", 5);
    case Auto =>
      MissingCharacter(s, "led", 0);
      MissingCharacter(s, "bom", 0);
  }

  /** On every command of the vocabulary the substring tests do what the command means. */
  lemma RelayWriteMatchesIntent(c: Command)
    ensures RelayWrite(CommandText(c)) == Intended(c)
  {
    PrefixPicksNode(c);
    SubstringsPickChannel(c);
  }

  /** The table after the handler's optimistic write for a command. */
  function ApplyCommand(t: RelayStates, command: string): RelayStates {
    match RelayWrite(command)
    case None => t
    case Some((slot, v)) => Set(t, slot, v)
  }

  /** The control handler's replies and their HTTP status codes. */
  datatype ControlReply = Sent | InvalidCommand | ClientNotReady | SendFailed {
    function StatusCode(): int {
      match this
      case Sent => 200
      case InvalidCommand => 400
      case ClientNotReady => 500
      case SendFailed => 500
    }
  }

  /** The outbound frame `{ type: 'control', command }`. */
  datatype Outbound = ControlFrame(command: string)

  /** The reply, the new table and the frame handed to the device (if any). */
  datatype DispatchResult = DispatchResult(reply: ControlReply, table: RelayStates, sent: Option<Outbound>)

  /**
    One `/api/control` request. `ready` is whether the device slot holds an open
    connection; `sendFails` is the outcome the transport reports for the send.
   */
  function Dispatch(t: RelayStates, command: Value, ready: bool, sendFails: bool): (r: DispatchResult)
    ensures r.reply == InvalidCommand <==> !IsValidCommand(command)
    ensures r.reply == ClientNotReady <==> IsValidCommand(command) && !ready
    ensures r.sent.Some? <==> IsValidCommand(command) && ready
    ensures r.sent.Some? ==> r.sent.value == ControlFrame(command.s)
    ensures r.sent.None? ==> r.table == t
    ensures r.sent.Some? ==> (r.reply == Sent <==> !sendFails) && (r.reply == SendFailed <==> sendFails)
  {
    if !IsValidCommand(command) then DispatchResult(InvalidCommand, t, None)
    else if !ready then DispatchResult(ClientNotReady, t, None)
    else
      var reply := if sendFails then SendFailed else Sent;
      DispatchResult(reply, ApplyCommand(t, command.s), Some(ControlFrame(command.s)))
  }

  /**
    Every command value that passes the list check, dispatched to a ready device, is
    the wire form of a vocabulary command, writes exactly that command's intended
    entry (none for "auto"), leaves every other entry alone and sends exactly its frame.
   */
  lemma DispatchValidCommand(t: RelayStates, command: Value, sendFails: bool)
    requires IsValidCommand(command)
    ensures exists c :: CommandText(c) == command.s
    ensures forall c :: CommandText(c) == command.s ==>
      var r := Dispatch(t, command, true, sendFails);
      && r.sent == Some(ControlFrame(command.s))
      && r.reply.StatusCode() == (if sendFails then 500 else 200)
      && match Intended(c)
         case None => r.table == t
         case Some((slot, v)) =>
           Get(r.table, slot) == v && forall other :: other != slot ==> Get(r.table, other) == Get(t, other)
  {
    ValidCommandsAreVocabulary(command.s);
    forall c | CommandText(c) == command.s
      ensures var r := Dispatch(t, command, true, sendFails);
        && r.sent == Some(ControlFrame(command.s))
        && r.reply.StatusCode() == (if sendFails then 500 else 200)
        && match Intended(c)
           case None => r.table == t
           case Some((slot, v)) =>
             Get(r.table, slot) == v && forall other :: other != slot ==> Get(r.table, other) == Get(t, other)
    {
      DispatchWritesIntended(t, c, sendFails);
    }
  }

  /**
    A dispatched command of the vocabulary writes the entry it names and no other
    one, whether or not the send then fails; "auto" writes nothing.
   */
  lemma DispatchWritesIntended(t: RelayStates, c: Command, sendFails: bool)
    ensures var r := Dispatch(t, Str(CommandText(c)), true, sendFails);
      && r.sent == Some(ControlFrame(CommandText(c)))
      && r.reply.StatusCode() == (if sendFails then 500 else 200)
      && match Intended(c)
         case None => r.table == t
         case Some((slot, v)) =>
           Get(r.table, slot) == v && forall other :: other != slot ==> Get(r.table, other) == Get(t, other)
  {
    ValidCommandsAreVocabulary(CommandText(c));
    RelayWriteMatchesIntent(c);
  }
}
