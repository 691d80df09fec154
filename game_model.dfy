/** The world of the text adventure and what one command does to it, as values:
    the room table, the player's state and the output log. The class
    Services.GameService performs these steps in place; the lemmas in
    GameProperties state what they promise. */
module GameModel {
  import opened JsText

  /** The interaction closures of the four rooms, one constructor per closure. */
  datatype Effect = PickUpManual | PickUpKeycard | OperateTerminal | UnlockDoor | PressButton

  /** A room. `exits` lists (direction, destination) in the insertion order that
      `Object.keys` reports; `interactions` maps a keyword to its effect. */
  datatype Room = Room(
    name: string,
    description: string,
    exits: seq<(string, string)>,
    items: seq<string>,
    interactions: map<string, Effect>)

  /** The player's state; `visited` holds the rooms whose entry is `true`. */
  datatype GameState = GameState(
    currentRoom: string,
    inventory: seq<string>,
    gameOver: bool,
    hasWon: bool,
    visited: set<string>)

  /** Everything a command can change: the room table, the state and the output log. */
  datatype World = World(rooms: map<string, Room>, state: GameState, output: seq<string>)

  /** A parsed command line: the verb and the rest of the line. */
  datatype Command = Command(action: string, target: string)

  const StartDescription :=
    "You are in a dimly lit command " +
    "center. Screens flicker with " +
    "cryptic data. There's a door " +
    "to the east and a corridor to " +
    "the north."
  const ServerDescription :=
    "A cold room filled with server " +
    "racks. The hum of cooling fans " +
    "fills the air. There's a door " +
    "to the west and a terminal in " +
    "the corner."
  const CorridorDescription :=
    "A long corridor with flickering " +
    "lights. There's a door to the " +
    "south leading back to the command " +
    "center, and a locked door to " +
    "the north."
  const MainframeDescription :=
    "The heart of the system. A massive " +
    "mainframe computer occupies " +
    "most of the room. There's a " +
    "control panel with a big red " +
    "button."

  const StartRoom := Room("Command Center", StartDescription,
    [("north", "corridor"), ("east", "server")], ["manual"], map["manual" := PickUpManual])
  const ServerRoom := Room("Server Room", ServerDescription,
    [("west", "start")], ["keycard"], map["keycard" := PickUpKeycard, "terminal" := OperateTerminal])
  const CorridorRoom := Room("Main Corridor", CorridorDescription,
    [("south", "start")], [], map["door" := UnlockDoor])
  const MainframeRoom := Room("Mainframe Room", MainframeDescription,
    [("south", "corridor")], [], map["button" := PressButton])

  /** The room table as the service is created. */
  const InitialRooms: map<string, Room> :=
    map["start" := StartRoom, "server" := ServerRoom, "corridor" := CorridorRoom, "mainframe" := MainframeRoom]

  /** The rooms that the interaction effects name directly. */
  const RoomIds: set<string> := {"start", "server", "corridor", "mainframe"}

  /** The state of a new game. */
  const InitialState := GameState("start", [], false, false, {"start"})

  const WelcomeLine := "Welcome to Terminal Adventure!"
  const HelpHintLine := "Type \"help\" for a list of commands."
  const GameOverLine :=
    "The game is over. Type \"restart\" " +
    "to play again."
  const UnknownCommandLine :=
    "I don't understand that command. " +
    "Type 'help' for a list of commands."
  const CongratulationsLine :=
    "Congratulations! You have completed " +
    "the mission!"
  const TryAgainLine :=
    "Game Over. Type \"restart\" to " +
    "try again."
  const HelpText :=
    "\n" +
    "Available commands:\n" +
    "- look: Look around the current " +
    "location\n" +
    "- go [direction]: Move in a " +
    "direction (north, south, east, " +
    "west)\n" +
    "- take [item]: Pick up an item\n" +
    "- inventory: Check your inventory\n" +
    "- use [item/object]: Use an " +
    "item or interact with an object\n" +
    "- examine [item/object]: Look " +
    "closely at an item or object\n" +
    "- restart: Start a new game\n" +
    "- clear: Clear the terminal " +
    "output\n" +
    "- help: Show this help message\n" +
    "    "
  const ManualText :=
    "A technical manual with detailed " +
    "instructions for rebooting the " +
    "mainframe system."
  const KeycardText :=
    "A security keycard with level " +
    "5 clearance. It can unlock secure " +
    "areas."
  const ManualAlreadyLine := "You already have the manual."
  const ManualTakenLine :=
    "You pick up the system manual. " +
    "It contains instructions on " +
    "how to reboot the mainframe."
  const KeycardAlreadyLine := "You already have the keycard."
  const KeycardTakenLine :=
    "You pick up the security keycard. " +
    "It might grant access to restricted " +
    "areas."
  const TerminalSuccessLine :=
    "Following the instructions in " +
    "the manual, you successfully " +
    "reboot a section of the system. " +
    "Progress!"
  const TerminalLockedLine :=
    "The terminal requires specific " +
    "knowledge to operate. Maybe " +
    "there's a manual somewhere?"
  const DoorUnlockedLine :=
    "You use the keycard to unlock " +
    "the door to the north. It leads " +
    "to the mainframe room."
  const DoorLockedLine :=
    "The door to the north is locked. " +
    "It requires a security keycard."
  const ButtonSuccessLine :=
    "Following the instructions in " +
    "the manual, you initiate the " +
    "correct sequence and press the " +
    "button. The system reboots successfully. " +
    "You've completed your mission!"
  const ButtonUnsureLine :=
    "You're not sure what sequence " +
    "to enter before pressing the " +
    "button. It could be dangerous " +
    "to press it randomly."

  /** The output log of a new game, before the start room is described. */
  function Banner(startDescription: string): seq<string> {
    [WelcomeLine, HelpHintLine, "", startDescription]
  }

  // ---------------------------------------------------------------------------
  // Exits: an object literal whose own keys keep their insertion order (as
  // `Object.keys` lists non-numeric keys, the only ones the rooms use)

  /** `Object.keys(exits)` */
  function Keys(exits: seq<(string, string)>): (ks: seq<string>)
    ensures |ks| == |exits|
    ensures forall j | 0 <= j < |exits| :: ks[j] == exits[j].0
  {
    if exits == [] then [] else [exits[0].0] + Keys(exits[1..])
  }

  /** The own property `exits[key]`, if there is one. */
  function Lookup(exits: seq<(string, string)>, key: string): (r: Option<string>)
    ensures r.None? <==> key !in Keys(exits)
    ensures r.Some? ==> (key, r.value) in exits
  {
    if exits == [] then None
    else if exits[0].0 == key then Some(exits[0].1)
    else Lookup(exits[1..], key)
  }

  /** `exits[key] = dest`: an existing key keeps its place, a new key goes last. */
  function SetExit(exits: seq<(string, string)>, key: string, dest: string): (r: seq<(string, string)>)
    ensures forall j | 0 <= j < |r| :: r[j] == (key, dest) || r[j] in exits
  {
    if exits == [] then [(key, dest)]
    else if exits[0].0 == key then [(key, dest)] + exits[1..]
    else [exits[0]] + SetExit(exits[1..], key, dest)
  }

  /** After `exits[key] = dest`, `exits[key]` reads `dest` and every other key reads as before. */
  lemma {:induction false} SetExitLookup(exits: seq<(string, string)>, key: string, dest: string, other: string)
    ensures Lookup(SetExit(exits, key, dest), key) == Some(dest)
    ensures other != key ==> Lookup(SetExit(exits, key, dest), other) == Lookup(exits, other)
  {
    if exits != [] && exits[0].0 != key {
      SetExitLookup(exits[1..], key, dest, other);
    }
  }

  /** `Object.keys` after `exits[key] = dest`: unchanged when the key was there,
      otherwise the new key comes last. */
  lemma {:induction false} SetExitKeys(exits: seq<(string, string)>, key: string, dest: string)
    ensures Keys(SetExit(exits, key, dest)) == if key in Keys(exits) then Keys(exits) else Keys(exits) + [key]
  {
    if exits != [] && exits[0].0 != key {
      SetExitKeys(exits[1..], key, dest);
      assert Keys(exits) == [exits[0].0] + Keys(exits[1..]);
    }
  }

  /** Setting an exit to the value it already has changes nothing, and
      setting it twice is setting it once. */
  lemma {:induction false} SetExitIdempotent(exits: seq<(string, string)>, key: string, dest: string)
    ensures SetExit(SetExit(exits, key, dest), key, dest) == SetExit(exits, key, dest)
    ensures Lookup(exits, key) == Some(dest) ==> SetExit(exits, key, dest) == exits
  {
    if exits != [] && exits[0].0 != key {
      SetExitIdempotent(exits[1..], key, dest);
    }
  }

  /** Where `direction` leads when `room.exits[direction]` is truthy: an own
      exit with a non-empty destination. */
  function ExitTarget(exits: seq<(string, string)>, direction: string): Option<string> {
    match Lookup(exits, direction)
    case Some(dest) => if dest != "" then Some(dest) else None
    case None => None
  }

  // ---------------------------------------------------------------------------
  // As written: `room.exits[direction]` also sees what a plain object
  // inherits from Object.prototype

  /** What the JavaScript expression `exits[key]` yields on an object literal. */
  datatype PropertyValue = OwnString(s: string) | Inherited(member: string) | Undefined

  /** The properties every object literal inherits from Object.prototype. */
  const ObjectPrototypeMembers: set<string> := {
    "constructor", "hasOwnProperty", "isPrototypeOf", "propertyIsEnumerable",
    "toLocaleString", "toString", "valueOf", "__proto__",
    "__defineGetter__", "__defineSetter__", "__lookupGetter__", "__lookupSetter__"}

  /** `exits[key]` with the prototype chain. */
  function PropertyRead(exits: seq<(string, string)>, key: string): PropertyValue {
    match Lookup(exits, key)
    case Some(v) => OwnString(v)
    case None => if key in ObjectPrototypeMembers then Inherited(key) else Undefined
  }

  /** JavaScript truthiness of a property value; inherited members are functions or objects. */
  predicate Truthy(v: PropertyValue) {
    match v
    case OwnString(s) => s != ""
    case Inherited(_) => true
    case Undefined => false
  }

  /** `move(direction)` exactly as written; `None` where the call throws. A truthy
      inherited member becomes `currentRoom`, so the `this.rooms[...]` lookup of
      `getLocationDescription` yields undefined and reading its `name` throws a
      TypeError, after the state has been updated. */
  function MoveAsWritten(w: World, direction: string): Option<World>
    requires WellFormed(w)
  {
    var v := PropertyRead(w.rooms[w.state.currentRoom].exits, direction);
    if !Truthy(v) then Some(Say(w, "You can't go " + direction + " from here."))
    else if v.OwnString? then Some(Move(w, direction))
    else None
  }

  /** `items.filter(item => item !== x)` */
  function Without(items: seq<string>, x: string): (r: seq<string>)
    ensures x !in r
    ensures forall y | y in r :: y in items
    ensures forall y | y in items && y != x :: y in r
    ensures |r| <= |items|
  {
    if items == [] then []
    else if items[0] == x then Without(items[1..], x)
    else [items[0]] + Without(items[1..], x)
  }

  // ---------------------------------------------------------------------------
  // Well-formed worlds

  /** Every destination of `exits` is one of `ids`. */
  predicate DestinationsIn(exits: seq<(string, string)>, ids: set<string>) {
    forall j | 0 <= j < |exits| :: exits[j].1 in ids
  }

  /** The room lookups of the service never miss: the four named rooms exist,
      the player is in a room and every exit leads to a room. */
  predicate WellFormed(w: World) {
    && RoomIds <= w.rooms.Keys
    && w.state.currentRoom in w.rooms
    && forall id | id in w.rooms :: DestinationsIn(w.rooms[id].exits, w.rooms.Keys)
  }

  /** The service's world as it is created. */
  function InitialWorld(): World {
    World(InitialRooms, InitialState, Banner(LocationDescription(InitialRooms["start"])))
  }

  // ---------------------------------------------------------------------------
  // Reading the world

  /** `getLocationDescription` for a room. */
  function LocationDescription(room: Room): string {
    "== " + room.name + " ==\n" + room.description
    + (if |room.items| > 0 then "\nYou see: " + Join(room.items, ", ") else "")
    + (if |room.exits| > 0 then "\nExits: " + Join(Keys(room.exits), ", ") else "")
  }

  /** The description of the player's current room. */
  function Here(w: World): string
    requires w.state.currentRoom in w.rooms
  {
    LocationDescription(w.rooms[w.state.currentRoom])
  }

  /** `addOutput(line)` */
  function Say(w: World, line: string): World {
    w.(output := w.output + [line])
  }

  /** `input.toLowerCase().trim()`, split on single spaces: the first piece is the
      verb and the remaining pieces, joined again by single spaces, the target. */
  function Parse(input: string): Command {
    var parts := Split(Trim(ToLower(input)), ' ');
    Command(parts[0], Join(parts[1..], " "))
  }

  // ---------------------------------------------------------------------------
  // The operations

  /** `move(direction)` */
  function Move(w: World, direction: string): (r: World)
    requires WellFormed(w)
    ensures WellFormed(r)
  {
    match ExitTarget(w.rooms[w.state.currentRoom].exits, direction)
    case Some(dest) =>
      var moved := w.(state := w.state.(currentRoom := dest, visited := w.state.visited + {dest}));
      Say(Say(moved, "You move " + direction + "."), LocationDescription(w.rooms[dest]))
    case None =>
      Say(w, "You can't go " + direction + " from here.")
  }

  /** What an interaction closure does to the world, and the line it returns.
      The closures name their rooms ('start', 'server', 'corridor') directly. */
  function ApplyEffect(w: World, e: Effect): (r: (World, string))
    requires WellFormed(w)
    ensures WellFormed(r.0) && r.0.output == w.output
  {
    var held := w.state.inventory;
    match e
    case PickUpManual =>
      if "manual" in held then (w, ManualAlreadyLine)
      else
        var start := w.rooms["start"];
        (w.(state := w.state.(inventory := held + ["manual"]),
            rooms := w.rooms["start" := start.(items := Without(start.items, "manual"))]),
         ManualTakenLine)
    case PickUpKeycard =>
      if "keycard" in held then (w, KeycardAlreadyLine)
      else
        var server := w.rooms["server"];
        (w.(state := w.state.(inventory := held + ["keycard"]),
            rooms := w.rooms["server" := server.(items := Without(server.items, "keycard"))]),
         KeycardTakenLine)
    case OperateTerminal =>
      (w, if "manual" in held then TerminalSuccessLine else TerminalLockedLine)
    case UnlockDoor =>
      if "keycard" in held then
        var corridor := w.rooms["corridor"];
        (w.(rooms := w.rooms["corridor" := corridor.(exits := SetExit(corridor.exits, "north", "mainframe"))]),
         DoorUnlockedLine)
      else (w, DoorLockedLine)
    case PressButton =>
      if "manual" in held then (w.(state := w.state.(gameOver := true, hasWon := true)), ButtonSuccessLine)
      else (w, ButtonUnsureLine)
  }

  /** `takeItem(itemName)` */
  function TakeItem(w: World, item: string): (r: World)
    requires WellFormed(w)
    ensures WellFormed(r)
  {
    var here := w.state.currentRoom;
    var room := w.rooms[here];
    if item == "" then Say(w, "Take what?")
    else if item !in room.items then Say(w, "There is no " + item + " here.")
    else if item in room.interactions then
      var (w', line) := ApplyEffect(w, room.interactions[item]);
      Say(w', line)
    else
      Say(w.(state := w.state.(inventory := w.state.inventory + [item]),
             rooms := w.rooms[here := room.(items := Without(room.items, item))]),
          "You take the " + item + ".")
  }

  /** `showInventory()` */
  function ShowInventory(w: World): World {
    if |w.state.inventory| == 0 then Say(w, "Your inventory is empty.")
    else Say(w, "Inventory: " + Join(w.state.inventory, ", "))
  }

  /** `interact(target)` */
  function Interact(w: World, target: string): (r: World)
    requires WellFormed(w)
    ensures WellFormed(r)
  {
    var room := w.rooms[w.state.currentRoom];
    if target == "" then Say(w, "Use what?")
    else if target in room.interactions then
      var (w', line) := ApplyEffect(w, room.interactions[target]);
      var said := Say(w', line);
      if said.state.gameOver then Say(said, if said.state.hasWon then CongratulationsLine else TryAgainLine)
      else said
    else Say(w, "You can't use " + target + " here.")
  }

  /** The text `examine` prints for an item that is present or held. */
  function ExamineText(target: string): string {
    if target == "manual" then ManualText
    else if target == "keycard" then KeycardText
    else "You see nothing special about the " + target + "."
  }

  /** `examine(target)` */
  function Examine(w: World, target: string): World
    requires w.state.currentRoom in w.rooms
  {
    if target == "" then Say(w, "Examine what?")
    else if target in w.rooms[w.state.currentRoom].items || target in w.state.inventory then
      Say(w, ExamineText(target))
    else Say(w, "You don't see a " + target + " here.")
  }

  /** `restartGame()`: a new state and a new banner, over the room table as it is. */
  function RestartGame(w: World): (r: World)
    requires WellFormed(w)
    ensures WellFormed(r)
  {
    World(w.rooms, InitialState, Banner(LocationDescription(w.rooms["start"])))
  }

  /** `clearOutput()` */
  function ClearOutput(w: World): World {
    w.(output := [])
  }

  /** The verbs of the `switch` in `processCommand`. */
  const Verbs: set<string> := {
    "help", "look", "go", "move", "walk", "north", "south", "east", "west",
    "take", "get", "pickup", "inventory", "inv", "i", "use", "interact",
    "examine", "inspect", "restart", "clear"}

  /** The handlers the `switch` chooses between. */
  datatype Handler = ShowHelpHandler | LookHandler | GoHandler | DirectionHandler | TakeHandler
    | InventoryHandler | UseHandler | ExamineHandler | RestartHandler | ClearHandler | UnknownHandler

  /** The `case` labels of the `switch`, grouped by the handler they fall through to. */
  function HandlerOf(action: string): (h: Handler)
    ensures h == UnknownHandler <==> action !in Verbs
  {
    match action
    case "help" => ShowHelpHandler
    case "look" => LookHandler
    case "go" | "move" | "walk" => GoHandler
    case "north" | "south" | "east" | "west" => DirectionHandler
    case "take" | "get" | "pickup" => TakeHandler
    case "inventory" | "inv" | "i" => InventoryHandler
    case "use" | "interact" => UseHandler
    case "examine" | "inspect" => ExamineHandler
    case "restart" => RestartHandler
    case "clear" => ClearHandler
    case _ => UnknownHandler
  }

  /** The `switch` of `processCommand`, after the echo. */
  function Dispatch(w: World, c: Command): (r: World)
    requires WellFormed(w)
    ensures WellFormed(r)
  {
    match HandlerOf(c.action)
    case ShowHelpHandler => Say(w, HelpText)
    case LookHandler => Say(w, Here(w))
    case GoHandler => Move(w, c.target)
    case DirectionHandler => Move(w, c.action)
    case TakeHandler => TakeItem(w, c.target)
    case InventoryHandler => ShowInventory(w)
    case UseHandler => Interact(w, c.target)
    case ExamineHandler => Examine(w, c.target)
    case RestartHandler => RestartGame(w)
    case ClearHandler => ClearOutput(w)
    case UnknownHandler => Say(w, UnknownCommandLine)
  }

  /** `processCommand(input)`: refused once the game is over; otherwise the raw
      input is echoed and the verb dispatched. */
  function Step(w: World, input: string): (r: World)
    requires WellFormed(w)
    ensures WellFormed(r)
  {
    if w.state.gameOver then Say(w, GameOverLine)
    else Dispatch(Say(w, "> " + input), Parse(input))
  }
}
