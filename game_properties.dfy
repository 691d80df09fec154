/** What the command interpreter of GameModel promises: the game-over gate, the
    echo, movement, taking and using things, restart and clear, the invariants
    every command keeps, and a complete play-through. */
module GameProperties {
  import opened JsText
  import opened GameModel

  /** `processCommand` applied to each input in turn. */
  function Run(w: World, inputs: seq<string>): (r: World)
    requires WellFormed(w)
    ensures WellFormed(r)
    decreases |inputs|
  {
    if inputs == [] then w else Run(Step(w, inputs[0]), inputs[1..])
  }

  // ---------------------------------------------------------------------------
  // Invariants

  predicate NoDuplicates(xs: seq<string>) {
    forall i, j | 0 <= i < j < |xs| :: xs[i] != xs[j]
  }

  /** The interaction closures each room was created with. */
  function AuthoredInteractions(id: string): map<string, Effect> {
    if id == "start" then map["manual" := PickUpManual]
    else if id == "server" then map["keycard" := PickUpKeycard, "terminal" := OperateTerminal]
    else if id == "corridor" then map["door" := UnlockDoor]
    else if id == "mainframe" then map["button" := PressButton]
    else map[]
  }

  /** The room each item lies in when the service is created. */
  function HomeOf(item: string): string {
    if item == "manual" then "start" else if item == "keycard" then "server" else ""
  }

  /** The room table keeps its four rooms and their interactions, and an item
      only ever lies in the room it was created in. */
  predicate AuthoredRooms(rooms: map<string, Room>) {
    && rooms.Keys == RoomIds
    && (forall id | id in rooms :: rooms[id].interactions == AuthoredInteractions(id))
    && (forall id | id in rooms :: forall x | x in rooms[id].items :: HomeOf(x) == id)
  }

  /** What holds of every world the service can reach from its initial one:
      no item is both held and lying in a room, none is held twice, and the
      game ends only by being won. */
  predicate Consistent(w: World) {
    ConsistentTables(w.rooms, w.state)
  }

  /** `Consistent`, on the two parts of the world it depends on. */
  predicate ConsistentTables(rooms: map<string, Room>, state: GameState) {
    && WellFormed(World(rooms, state, []))
    && AuthoredRooms(rooms)
    && NoDuplicates(state.inventory)
    && (forall id | id in rooms :: forall x | x in rooms[id].items :: x !in state.inventory)
    && (state.hasWon <==> state.gameOver)
  }

  /** Each room of a new game lies under its id, with the closures and items
      it was authored with. */
  lemma InitialRoomAuthored(id: string)
    requires id in RoomIds
    ensures id in InitialRooms
    ensures InitialRooms[id].interactions == AuthoredInteractions(id)
    ensures forall x | x in InitialRooms[id].items :: HomeOf(x) == id
    ensures DestinationsIn(InitialRooms[id].exits, RoomIds)
  {
    if id == "start" {
      assert InitialRooms[id] == StartRoom;
    } else if id == "server" {
      assert InitialRooms[id] == ServerRoom;
    } else if id == "corridor" {
      assert InitialRooms[id] == CorridorRoom;
    } else {
      assert InitialRooms[id] == MainframeRoom;
    }
  }

  /** The room table and the state of a new game are consistent. */
  lemma InitialTablesConsistent()
    ensures ConsistentTables(InitialRooms, InitialState)
  {
    var rooms := InitialRooms;
    assert rooms.Keys == RoomIds;
    forall id | id in rooms
      ensures rooms[id].interactions == AuthoredInteractions(id)
      ensures forall x | x in rooms[id].items :: HomeOf(x) == id
      ensures DestinationsIn(rooms[id].exits, rooms.Keys)
    {
      InitialRoomAuthored(id);
    }
    assert AuthoredRooms(rooms);
    assert WellFormed(World(rooms, InitialState, []));
  }

  lemma InitialWorldConsistent()
    ensures Consistent(InitialWorld())
  {
    InitialTablesConsistent();
    assert InitialWorld().rooms == InitialRooms && InitialWorld().state == InitialState;
  }

  /** Picking up an item not yet held keeps the inventory free of duplicates. */
  lemma AppendFresh(xs: seq<string>, x: string)
    requires NoDuplicates(xs) && x !in xs
    ensures NoDuplicates(xs + [x])
  {
  }

  /** Removing items from a room keeps the room table as authored. */
  lemma FewerItemsAuthored(rooms: map<string, Room>, id: string, items: seq<string>)
    requires AuthoredRooms(rooms) && id in rooms
    requires forall x | x in items :: x in rooms[id].items
    ensures AuthoredRooms(rooms[id := rooms[id].(items := items)])
  {
  }

  /** Changing the exits of a room keeps the room table as authored. */
  lemma NewExitsAuthored(rooms: map<string, Room>, id: string, exits: seq<(string, string)>)
    requires AuthoredRooms(rooms) && id in rooms
    ensures AuthoredRooms(rooms[id := rooms[id].(exits := exits)])
  {
  }

  /** Moving the one item a room was created with into the inventory keeps the
      world consistent. */
  lemma PickUpKeepsConsistent(w: World, id: string, item: string)
    requires Consistent(w) && id in w.rooms && HomeOf(item) == id
    requires item !in w.state.inventory
    ensures Consistent(w.(state := w.state.(inventory := w.state.inventory + [item]),
                          rooms := w.rooms[id := w.rooms[id].(items := Without(w.rooms[id].items, item))]))
  {
    AppendFresh(w.state.inventory, item);
    FewerItemsAuthored(w.rooms, id, Without(w.rooms[id].items, item));
  }

  /** An interaction effect keeps the world consistent. */
  lemma EffectKeepsConsistent(w: World, e: Effect)
    requires Consistent(w) && !w.state.gameOver
    ensures Consistent(ApplyEffect(w, e).0)
  {
    var held := w.state.inventory;
    match e
    case PickUpManual =>
      if "manual" !in held { PickUpKeepsConsistent(w, "start", "manual"); }
    case PickUpKeycard =>
      if "keycard" !in held { PickUpKeepsConsistent(w, "server", "keycard"); }
    case OperateTerminal =>
    case UnlockDoor =>
      if "keycard" in held {
        NewExitsAuthored(w.rooms, "corridor", SetExit(w.rooms["corridor"].exits, "north", "mainframe"));
      }
    case PressButton =>
  }

  /** Taking an item keeps the world consistent. */
  lemma TakeKeepsConsistent(w: World, item: string)
    requires Consistent(w) && !w.state.gameOver
    ensures Consistent(TakeItem(w, item))
  {
    var room := w.rooms[w.state.currentRoom];
    if item != "" && item in room.items {
      assert HomeOf(item) == w.state.currentRoom;
      EffectKeepsConsistent(w, room.interactions[item]);
    }
  }

  /** Using a keyword keeps the world consistent. */
  lemma InteractKeepsConsistent(w: World, target: string)
    requires Consistent(w) && !w.state.gameOver
    ensures Consistent(Interact(w, target))
  {
    var room := w.rooms[w.state.currentRoom];
    if target != "" && target in room.interactions {
      EffectKeepsConsistent(w, room.interactions[target]);
    }
  }

  /** Restarting keeps the world consistent: the inventory it empties cannot
      clash with the items left in the rooms. */
  lemma RestartKeepsConsistent(w: World)
    requires Consistent(w)
    ensures Consistent(RestartGame(w))
  {
  }

  /** `help`, `look`, `inventory`, `examine`, `clear` and an unknown verb change
      neither the room table nor the state. */
  lemma DispatchQuiet(w: World, c: Command)
    requires WellFormed(w)
    requires HandlerOf(c.action) in {ShowHelpHandler, LookHandler, InventoryHandler, ExamineHandler, ClearHandler, UnknownHandler}
    ensures Dispatch(w, c).rooms == w.rooms && Dispatch(w, c).state == w.state
  {
  }

  /** Every verb keeps the world consistent. */
  lemma DispatchKeepsConsistent(w: World, c: Command)
    requires Consistent(w) && !w.state.gameOver
    ensures Consistent(Dispatch(w, c))
  {
    match HandlerOf(c.action)
    case TakeHandler => TakeKeepsConsistent(w, c.target);
    case UseHandler => InteractKeepsConsistent(w, c.target);
    case RestartHandler => RestartKeepsConsistent(w);
    case GoHandler => MoveKeepsConsistent(w, c.target);
    case DirectionHandler => MoveKeepsConsistent(w, c.action);
    case _ => DispatchQuiet(w, c);
  }

  /** Moving keeps the world consistent. */
  lemma MoveKeepsConsistent(w: World, direction: string)
    requires Consistent(w)
    ensures Consistent(Move(w, direction))
  {
  }

  /** Every command keeps the world consistent. */
  lemma StepKeepsConsistent(w: World, input: string)
    requires Consistent(w)
    ensures Consistent(Step(w, input))
  {
    if !w.state.gameOver {
      DispatchKeepsConsistent(Say(w, "> " + input), Parse(input));
    }
  }

  /** Consistency holds after any sequence of commands. */
  lemma {:induction false} RunKeepsConsistent(w: World, inputs: seq<string>)
    requires Consistent(w)
    ensures Consistent(Run(w, inputs))
    decreases |inputs|
  {
    if inputs != [] {
      StepKeepsConsistent(w, inputs[0]);
      RunKeepsConsistent(Step(w, inputs[0]), inputs[1..]);
    }
  }

  /** From a new game, whatever is typed: the inventory never holds an item
      twice, and the game is won exactly when it is over. */
  lemma ReachableWorlds(inputs: seq<string>)
    ensures Consistent(InitialWorld())
    ensures var r := Run(InitialWorld(), inputs);
      && NoDuplicates(r.state.inventory)
      && (r.state.hasWon ==> r.state.gameOver)
      && (r.state.gameOver ==> r.state.hasWon)
      && r.state.currentRoom in r.rooms
  {
    InitialWorldConsistent();
    RunKeepsConsistent(InitialWorld(), inputs);
  }

  // ---------------------------------------------------------------------------
  // Parsing

  /** The verb is what precedes the first space of the lower-cased, trimmed
      input and the target is everything after that space, spaces included. */
  lemma ParseAtFirstSpace(input: string)
    ensures var s := Trim(ToLower(input));
      var c := Parse(input);
      match IndexOf(s, ' ')
      case None => c.action == s && c.target == ""
      case Some(i) => c.action == s[..i] && c.target == s[i + 1..]
  {
    SplitAtFirst(Trim(ToLower(input)), ' ');
  }

  /** Every character of `s` is a lower-case ASCII letter. */
  predicate PlainWord(s: string) {
    forall i | 0 <= i < |s| :: 'a' <= s[i] <= 'z'
  }

  /** A lower-case ASCII letter is not white space. */
  lemma LetterIsNotWhiteSpace(c: char)
    requires 'a' <= c <= 'z'
    ensures !IsWhiteSpace(c) && !('A' <= c <= 'Z')
  {
  }

  /** A lower-case word with no white space parses to that verb and an empty target. */
  lemma ParseWord(verb: string)
    requires verb != "" && PlainWord(verb)
    ensures Parse(verb) == Command(verb, "")
  {
    LowerOfLower(verb);
    LetterIsNotWhiteSpace(verb[0]);
    LetterIsNotWhiteSpace(verb[|verb| - 1]);
    TrimOfTrimmed(verb);
    SplitWithout(verb, ' ');
  }

  /** A lower-case verb, one space and a lower-case word parse to that verb and
      that target. */
  lemma ParseVerbTarget(verb: string, target: string)
    requires verb != "" && target != "" && PlainWord(verb) && PlainWord(target)
    ensures Parse(verb + " " + target) == Command(verb, target)
  {
    var s := verb + " " + target;
    assert NoCapital: forall i | 0 <= i < |s| :: !('A' <= s[i] <= 'Z') by {
      forall i | 0 <= i < |s|
        ensures !('A' <= s[i] <= 'Z')
      {
        if i < |verb| {
          assert s[i] == verb[i];
        } else if i > |verb| {
          assert s[i] == target[i - |verb| - 1];
        }
      }
    }
    LowerOfLower(s);
    assert s[0] == verb[0] && s[|s| - 1] == target[|target| - 1];
    LetterIsNotWhiteSpace(verb[0]);
    LetterIsNotWhiteSpace(target[|target| - 1]);
    TrimOfTrimmed(s);
    assert ' ' !in verb && ' ' !in target;
    assert s == verb + [' '] + target;
    SplitCons(verb, ' ', target);
    SplitWithout(target, ' ');
    var parts := Split(s, ' ');
    assert parts == [verb] + [target];
    assert parts[1..] == [target];
  }

  // ---------------------------------------------------------------------------
  // The game-over gate and the echo

  /** Once the game is over, every input, `restart` included, adds exactly the
      game-over line and changes nothing else. */
  lemma GameOverGate(w: World, input: string)
    requires WellFormed(w) && w.state.gameOver
    ensures Step(w, input).rooms == w.rooms && Step(w, input).state == w.state
    ensures Step(w, input).output == w.output + [GameOverLine]
  {
  }

  /** Once over, the game stays over: a whole sequence of inputs only adds one
      game-over line per input. */
  lemma {:induction false} OverIsFinal(w: World, inputs: seq<string>)
    requires WellFormed(w) && w.state.gameOver
    ensures Run(w, inputs).rooms == w.rooms && Run(w, inputs).state == w.state
    ensures Run(w, inputs).output == w.output + seq(|inputs|, _ => GameOverLine)
    decreases |inputs|
  {
    if inputs != [] {
      var w1 := Step(w, inputs[0]);
      OverIsFinal(w1, inputs[1..]);
      assert w1.output + seq(|inputs| - 1, _ => GameOverLine) == w.output + seq(|inputs|, _ => GameOverLine);
    }
  }

  /** Every verb but `restart` and `clear` keeps the log and adds at least one line. */
  lemma DispatchAppends(w: World, c: Command)
    requires WellFormed(w)
    requires HandlerOf(c.action) != RestartHandler && HandlerOf(c.action) != ClearHandler
    ensures |Dispatch(w, c).output| > |w.output|
    ensures Dispatch(w, c).output[..|w.output|] == w.output
  {
    var r := Dispatch(w, c);
    match HandlerOf(c.action)
    case GoHandler => MoveAppends(w, c.target);
    case DirectionHandler => MoveAppends(w, c.action);
    case TakeHandler => TakeAppends(w, c.target);
    case UseHandler => InteractAppends(w, c.target);
    case ShowHelpHandler => assert r.output == w.output + [HelpText];
    case LookHandler => assert r.output == w.output + [Here(w)];
    case InventoryHandler => assert r.output == w.output + [r.output[|w.output|]];
    case ExamineHandler => assert r.output == w.output + [r.output[|w.output|]];
    case UnknownHandler => assert r.output == w.output + [UnknownCommandLine];
    case RestartHandler =>
    case ClearHandler =>
  }

  lemma MoveAppends(w: World, direction: string)
    requires WellFormed(w)
    ensures |Move(w, direction).output| > |w.output| && Move(w, direction).output[..|w.output|] == w.output
  {
  }

  lemma TakeAppends(w: World, item: string)
    requires WellFormed(w)
    ensures |TakeItem(w, item).output| > |w.output| && TakeItem(w, item).output[..|w.output|] == w.output
  {
  }

  lemma InteractAppends(w: World, target: string)
    requires WellFormed(w)
    ensures |Interact(w, target).output| > |w.output| && Interact(w, target).output[..|w.output|] == w.output
  {
  }

  /** While the game is going, a command's first line is `"> "` and the raw input,
      appended after what was there (unless the verb is `restart` or `clear`,
      which empty the log). */
  lemma EchoComesFirst(w: World, input: string)
    requires WellFormed(w) && !w.state.gameOver
    requires HandlerOf(Parse(input).action) != RestartHandler && HandlerOf(Parse(input).action) != ClearHandler
    ensures var r := Step(w, input);
      |r.output| > |w.output| + 1 && r.output[..|w.output| + 1] == w.output + ["> " + input]
  {
    var w1 := Say(w, "> " + input);
    DispatchAppends(w1, Parse(input));
    var r := Step(w, input);
    assert r.output[..|w.output| + 1] == r.output[..|w1.output|];
  }

  /** An input whose verb is not in the table adds the echo and the
      "I don't understand" line, and nothing else. */
  lemma UnknownVerb(w: World, input: string)
    requires WellFormed(w) && !w.state.gameOver
    requires Parse(input).action !in Verbs
    ensures Step(w, input) == w.(output := w.output + ["> " + input, UnknownCommandLine])
  {
  }

  // ---------------------------------------------------------------------------
  // Movement

  /** Moving through an exit of the current room goes to its destination and
      adds that room to the visited ones, keeping the others; it prints the full
      description of the destination even when it was visited before. Any other
      direction prints one refusal and changes nothing. */
  lemma MoveOutcome(w: World, direction: string)
    requires WellFormed(w)
    ensures var r := Move(w, direction);
      var exits := w.rooms[w.state.currentRoom].exits;
      if direction in Keys(exits) && Lookup(exits, direction).value != "" then
        var dest := Lookup(exits, direction).value;
        && r.rooms == w.rooms
        && r.state.currentRoom == dest
        && r.state.visited == w.state.visited + {dest}
        && r.state.inventory == w.state.inventory
        && r.state.gameOver == w.state.gameOver && r.state.hasWon == w.state.hasWon
        && r.output == w.output + ["You move " + direction + ".", LocationDescription(w.rooms[dest])]
      else
        && r.rooms == w.rooms && r.state == w.state
        && r.output == w.output + ["You can't go " + direction + " from here."]
  {
  }

  /** Away from the names every object inherits, the move as written is the
      move of this model: same refusals, same destinations. */
  lemma MoveAsWrittenAgrees(w: World, direction: string)
    requires WellFormed(w)
    requires direction !in ObjectPrototypeMembers || direction in Keys(w.rooms[w.state.currentRoom].exits)
    ensures MoveAsWritten(w, direction) == Some(Move(w, direction))
  {
  }

  /** `processCommand` lower-cases the typed line, so of the names every object
      inherits only `constructor` and `__proto__` can reach `move` or
      `interact`. */
  lemma LowerCasePrototypeNames()
    ensures forall d | d in ObjectPrototypeMembers :: ToLower(d) == d <==> d == "constructor" || d == "__proto__"
  {
    assert ToLower("constructor") == "constructor";
    assert ToLower("__proto__") == "__proto__";
    assert ToLower("hasOwnProperty")[3] == 'o';
    assert ToLower("isPrototypeOf")[2] == 'p';
    assert ToLower("propertyIsEnumerable")[8] == 'i';
    assert ToLower("toLocaleString")[2] == 'l';
    assert ToLower("toString")[2] == 's';
    assert ToLower("valueOf")[5] == 'o';
    assert ToLower("__defineGetter__")[8] == 'g';
    assert ToLower("__defineSetter__")[8] == 's';
    assert ToLower("__lookupGetter__")[8] == 'g';
    assert ToLower("__lookupSetter__")[8] == 's';
  }

  /** A direction named like an inherited member that is not an exit of the
      room (after lower-casing only `constructor` and `__proto__` can arrive): the exit read as written finds the
      member, treats it as a destination and throws, where the own-property
      reading refuses the move and changes nothing. */
  lemma PrototypeDirectionThrows(w: World, direction: string)
    requires WellFormed(w)
    requires direction in ObjectPrototypeMembers && direction !in Keys(w.rooms[w.state.currentRoom].exits)
    ensures MoveAsWritten(w, direction) == None
    ensures Move(w, direction) == Say(w, "You can't go " + direction + " from here.")
  {
  }

  /** Typing `go` and such a direction, `go constructor` say, in a room without
      that exit: the service as written throws after echoing the command; this
      model prints the refusal. */
  lemma GoPrototypeDirection(w: World, direction: string)
    requires WellFormed(w) && !w.state.gameOver
    requires direction != "" && PlainWord(direction)
    requires direction in ObjectPrototypeMembers && direction !in Keys(w.rooms[w.state.currentRoom].exits)
    ensures MoveAsWritten(Say(w, "> go " + direction), direction) == None
    ensures Step(w, "go " + direction) == Say(Say(w, "> go " + direction), "You can't go " + direction + " from here.")
  {
    var input := "go " + direction;
    assert input == "go" + " " + direction;
    StepVerbTarget(w, "go", direction);
    EchoOfGo(direction);
    var echoed := Say(w, "> " + input);
    assert Step(w, input) == Dispatch(echoed, Command("go", direction));
    DispatchGo(echoed, direction);
    assert Step(w, input) == Move(echoed, direction);
    PrototypeDirectionThrows(echoed, direction);
    assert Step(w, input) == Say(echoed, "You can't go " + direction + " from here.");
  }

  lemma EchoOfGo(direction: string)
    ensures "> " + ("go " + direction) == "> go " + direction
  {
    var a, b := "> " + ("go " + direction), "> go " + direction;
    assert |a| == |b|;
    forall i | 0 <= i < |a| ensures a[i] == b[i] {
      if i >= 5 { assert a[i] == direction[i - 5]; }
    }
  }

  /** `go`, `move` and `walk` move in the direction that follows them. */
  lemma DispatchGo(w: World, direction: string)
    requires WellFormed(w)
    ensures Dispatch(w, Command("go", direction)) == Move(w, direction)
  {
    assert HandlerOf("go") == GoHandler;
  }

  /** `constructor` is such a direction. */
  lemma ConstructorIsPlainWord()
    ensures "constructor" in ObjectPrototypeMembers && PlainWord("constructor")
  {
  }

  /** `go d`, `move d` and `walk d` do what the bare direction `d` does, and
      whatever follows a bare direction is ignored. */
  lemma GoIsBareDirection(w: World, verb: string, direction: string, rest: string)
    requires WellFormed(w)
    requires verb == "go" || verb == "move" || verb == "walk"
    requires direction == "north" || direction == "south" || direction == "east" || direction == "west"
    ensures Dispatch(w, Command(verb, direction)) == Move(w, direction)
    ensures Dispatch(w, Command(direction, rest)) == Move(w, direction)
  {
    assert HandlerOf(verb) == GoHandler;
    assert HandlerOf(direction) == DirectionHandler;
  }

  // ---------------------------------------------------------------------------
  // Taking and using

  /** `take` with an empty target asks "Take what?", `use` with an empty target
      asks "Use what?", and a key with no interaction in the room cannot be used;
      none of them changes the state or the rooms. */
  lemma RefusedTargets(w: World, target: string)
    requires WellFormed(w)
    ensures target == "" ==> TakeItem(w, target) == Say(w, "Take what?")
    ensures target == "" ==> Interact(w, target) == Say(w, "Use what?")
    ensures target != "" && target !in w.rooms[w.state.currentRoom].interactions ==>
      Interact(w, target) == Say(w, "You can't use " + target + " here.")
  {
  }

  /** Only an item lying in the current room can be taken; taking it moves it
      from the room to the end of the inventory, leaves the player where they
      are, and prints the pick-up line its closure returns. */
  lemma TakeOutcome(w: World, item: string)
    requires Consistent(w) && item != ""
    ensures var r := TakeItem(w, item);
      var here := w.state.currentRoom;
      if item !in w.rooms[here].items then r == Say(w, "There is no " + item + " here.")
      else
        && r.state == w.state.(inventory := w.state.inventory + [item])
        && item !in r.rooms[here].items
        && (forall id | id in w.rooms :: r.rooms[id].exits == w.rooms[id].exits)
        && r.output == w.output + [if item == "manual" then ManualTakenLine else KeycardTakenLine]
  {
    var here := w.state.currentRoom;
    if item in w.rooms[here].items {
      assert HomeOf(item) == here;
    }
  }

  /** Taking an item changes no room but the current one. */
  lemma TakeLeavesOtherRooms(w: World, item: string)
    requires Consistent(w) && item in w.rooms[w.state.currentRoom].items
    ensures forall id | id in w.rooms && id != w.state.currentRoom :: TakeItem(w, item).rooms[id] == w.rooms[id]
  {
    var here := w.state.currentRoom;
    assert HomeOf(item) == here;
    assert item == "manual" || item == "keycard";
  }

  /** In the corridor, `use door` with the keycard makes `north` lead to the
      mainframe and leaves every other exit as it was; doing it again changes
      nothing more. Without the keycard the exits stay as they are. */
  lemma UseDoor(w: World)
    requires Consistent(w) && !w.state.gameOver && w.state.currentRoom == "corridor"
    ensures var r := Interact(w, "door");
      var exits := w.rooms["corridor"].exits;
      if "keycard" in w.state.inventory then
        && Lookup(r.rooms["corridor"].exits, "north") == Some("mainframe")
        && (forall k | k != "north" :: Lookup(r.rooms["corridor"].exits, k) == Lookup(exits, k))
        && r.state == w.state
        && r.output == w.output + [DoorUnlockedLine]
        && Interact(r, "door").rooms == r.rooms
      else
        r.rooms == w.rooms && r.state == w.state && r.output == w.output + [DoorLockedLine]
  {
    var exits := w.rooms["corridor"].exits;
    if "keycard" in w.state.inventory {
      forall k | k != "north"
        ensures Lookup(SetExit(exits, "north", "mainframe"), k) == Lookup(exits, k)
      {
        SetExitLookup(exits, "north", "mainframe", k);
      }
      SetExitLookup(exits, "north", "mainframe", "north");
      SetExitIdempotent(exits, "north", "mainframe");
    }
  }

  /** In the mainframe, `use button` ends the game, won, exactly when the manual
      is held, and then adds the congratulation; otherwise nothing changes but
      the line. */
  lemma PressTheButton(w: World)
    requires Consistent(w) && !w.state.gameOver && w.state.currentRoom == "mainframe"
    ensures var r := Interact(w, "button");
      && r.rooms == w.rooms
      && r.state.gameOver == ("manual" in w.state.inventory)
      && r.state.hasWon == ("manual" in w.state.inventory)
      && r.output == w.output +
           (if "manual" in w.state.inventory then [ButtonSuccessLine, CongratulationsLine] else [ButtonUnsureLine])
  {
  }

  /** In the start room, `use manual` picks the manual up the first time: it
      joins the inventory, leaves the start room and nothing else changes but
      the line; once it is held, only "You already have the manual." is
      printed. */
  lemma UseManual(w: World)
    requires Consistent(w) && !w.state.gameOver && w.state.currentRoom == "start"
    ensures var r := Interact(w, "manual");
      if "manual" in w.state.inventory then r == Say(w, ManualAlreadyLine)
      else
        && r.state == w.state.(inventory := w.state.inventory + ["manual"])
        && "manual" !in r.rooms["start"].items
        && r.rooms["start"].exits == w.rooms["start"].exits
        && (forall id | id in w.rooms && id != "start" :: r.rooms[id] == w.rooms[id])
        && r.output == w.output + [ManualTakenLine]
  {
    assert w.rooms["start"].interactions == AuthoredInteractions("start");
  }

  /** In the server room, `use keycard` does the same for the keycard. */
  lemma UseKeycard(w: World)
    requires Consistent(w) && !w.state.gameOver && w.state.currentRoom == "server"
    ensures var r := Interact(w, "keycard");
      if "keycard" in w.state.inventory then r == Say(w, KeycardAlreadyLine)
      else
        && r.state == w.state.(inventory := w.state.inventory + ["keycard"])
        && "keycard" !in r.rooms["server"].items
        && r.rooms["server"].exits == w.rooms["server"].exits
        && (forall id | id in w.rooms && id != "server" :: r.rooms[id] == w.rooms[id])
        && r.output == w.output + [KeycardTakenLine]
  {
    assert w.rooms["server"].interactions == AuthoredInteractions("server");
  }

  /** In the server room, `use terminal` only prints: the reboot line when the
      manual is held, the hint otherwise. */
  lemma UseTerminal(w: World)
    requires Consistent(w) && !w.state.gameOver && w.state.currentRoom == "server"
    ensures Interact(w, "terminal") ==
      Say(w, if "manual" in w.state.inventory then TerminalSuccessLine else TerminalLockedLine)
  {
    assert w.rooms["server"].interactions == AuthoredInteractions("server");
  }

  /** The pick-up closures test only the inventory, and a restart empties the
      inventory but keeps the rooms. So after `take manual` and `restart`, the
      manual is gone from the start room, yet `use manual` gives it back. */
  lemma UseRecoversManual(w: World)
    requires Consistent(w) && !w.state.gameOver && w.state.currentRoom == "start"
    requires "manual" in w.rooms["start"].items
    ensures var w2 := RestartGame(TakeItem(w, "manual"));
      var w3 := Interact(w2, "manual");
      && "manual" !in w2.rooms["start"].items
      && w3.state.inventory == ["manual"]
      && w3.output == w2.output + [ManualTakenLine]
  {
    TakeOutcome(w, "manual");
    TakeKeepsConsistent(w, "manual");
    var w1 := TakeItem(w, "manual");
    RestartKeepsConsistent(w1);
    var w2 := RestartGame(w1);
    assert w2.state == InitialState;
    UseManual(w2);
  }

  // ---------------------------------------------------------------------------
  // Restart and clear

  /** `restart` (accepted only while the game is going) starts a new state and a
      log of exactly four lines, the last describing the start room as the room
      table now has it; the room table itself is not restored. */
  lemma RestartOutcome(w: World, input: string)
    requires WellFormed(w) && !w.state.gameOver && HandlerOf(Parse(input).action) == RestartHandler
    ensures var r := Step(w, input);
      && r.state == GameState("start", [], false, false, {"start"})
      && r.output == [WelcomeLine, HelpHintLine, "", LocationDescription(w.rooms["start"])]
      && r.rooms == w.rooms
  {
    assert Step(w, input) == RestartGame(Say(w, "> " + input));
  }

  /** `clear` empties the log, its own echo included, and changes nothing else. */
  lemma ClearOutcome(w: World, input: string)
    requires WellFormed(w) && !w.state.gameOver && HandlerOf(Parse(input).action) == ClearHandler
    ensures Step(w, input) == w.(output := [])
  {
    assert Step(w, input) == ClearOutput(Say(w, "> " + input));
  }

  /** Since the room table is not restored, a manual taken before a restart
      cannot be taken again after it, though the inventory is emptied. */
  lemma TakenManualStaysTaken(w: World)
    requires Consistent(w) && !w.state.gameOver && w.state.currentRoom == "start"
    requires "manual" in w.rooms["start"].items
    ensures var w1 := TakeItem(w, "manual");
      var w2 := RestartGame(w1);
      var w3 := TakeItem(w2, "manual");
      && "manual" in w1.state.inventory
      && w3.state == InitialState
      && w3.output == w2.output + ["There is no manual here."]
  {
    TakeOutcome(w, "manual");
    var w1 := TakeItem(w, "manual");
    var w2 := RestartGame(w1);
    assert w2.rooms == w1.rooms && w2.state == InitialState;
    assert "manual" !in w2.rooms[w2.state.currentRoom].items;
    assert "There is no " + "manual" + " here." == "There is no manual here.";
  }

  // ---------------------------------------------------------------------------
  // A complete game

  /** Typing a lower-case verb and a lower-case word is dispatching that command
      after the echo. */
  lemma StepVerbTarget(w: World, verb: string, target: string)
    requires WellFormed(w) && !w.state.gameOver
    requires verb != "" && target != "" && PlainWord(verb) && PlainWord(target)
    ensures Step(w, verb + " " + target) == Dispatch(Say(w, "> " + (verb + " " + target)), Command(verb, target))
  {
    ParseVerbTarget(verb, target);
  }

  /** Typing a lower-case word alone is dispatching it with an empty target. */
  lemma StepWord(w: World, verb: string)
    requires WellFormed(w) && !w.state.gameOver
    requires verb != "" && PlainWord(verb)
    ensures Step(w, verb) == Dispatch(Say(w, "> " + verb), Command(verb, ""))
  {
    ParseWord(verb);
  }

  /** The exits of the start room, the server room and the corridor as they
      were authored. */
  predicate AuthoredExits(rooms: map<string, Room>)
    requires RoomIds <= rooms.Keys
  {
    && rooms["start"].exits == [("north", "corridor"), ("east", "server")]
    && rooms["server"].exits == [("west", "start")]
    && rooms["corridor"].exits == [("south", "start")]
  }

  /** A new game, as far as the walk below needs it: the player stands in the
      start room, the manual and the keycard lie in their rooms and the exits are
      as authored. */
  predicate Opening(w: World) {
    && Consistent(w) && !w.state.gameOver && w.state.inventory == []
    && w.state.currentRoom == "start"
    && w.rooms["start"].items == ["manual"] && w.rooms["server"].items == ["keycard"]
    && AuthoredExits(w.rooms)
  }

  lemma InitialWorldOpens()
    ensures Opening(InitialWorld())
  {
    InitialWorldConsistent();
  }

  /** The words the walk below types. */
  lemma WalkthroughWords()
    ensures PlainWord("take") && PlainWord("use") && PlainWord("manual") && PlainWord("keycard")
    ensures PlainWord("door") && PlainWord("button")
    ensures PlainWord("north") && PlainWord("east") && PlainWord("west")
  {
  }

  /** The directions among them. */
  lemma WalkthroughDirections()
    ensures HandlerOf("north") == DirectionHandler && HandlerOf("east") == DirectionHandler
    ensures HandlerOf("west") == DirectionHandler
  {
  }

  /** `take`, `get` and `pickup` take what follows them. */
  lemma DispatchTake(w: World, item: string)
    requires WellFormed(w)
    ensures Dispatch(w, Command("take", item)) == TakeItem(w, item)
  {
    assert HandlerOf("take") == TakeHandler;
  }

  /** `use` and `interact` use what follows them. */
  lemma DispatchUse(w: World, target: string)
    requires WellFormed(w)
    ensures Dispatch(w, Command("use", target)) == Interact(w, target)
  {
    assert HandlerOf("use") == UseHandler;
  }

  /** Typing `take` and an item lying in the room takes it: the item joins the
      inventory, the player stays, and the other rooms and every exit are kept. */
  lemma TypeTake(w: World, item: string)
    requires Consistent(w) && !w.state.gameOver
    requires item != "" && PlainWord(item) && item in w.rooms[w.state.currentRoom].items
    ensures var r := Step(w, "take" + " " + item);
      && Consistent(r) && !r.state.gameOver
      && r.state.currentRoom == w.state.currentRoom
      && r.state.inventory == w.state.inventory + [item]
      && (forall id | id in w.rooms :: r.rooms[id].exits == w.rooms[id].exits)
      && (forall id | id in w.rooms && id != w.state.currentRoom :: r.rooms[id] == w.rooms[id])
  {
    WalkthroughWords();
    var e := Say(w, "> " + ("take" + " " + item));
    StepVerbTarget(w, "take", item);
    DispatchTake(e, item);
    TakeOutcome(e, item);
    TakeLeavesOtherRooms(e, item);
    TakeKeepsConsistent(e, item);
  }

  /** Typing a direction with an exit that leads somewhere goes there and
      changes neither the rooms nor the inventory. */
  lemma TypeDirection(w: World, direction: string, dest: string)
    requires Consistent(w) && !w.state.gameOver
    requires direction != "" && PlainWord(direction) && HandlerOf(direction) == DirectionHandler
    requires Lookup(w.rooms[w.state.currentRoom].exits, direction) == Some(dest) && dest != ""
    ensures var r := Step(w, direction);
      && Consistent(r) && !r.state.gameOver
      && r.rooms == w.rooms
      && r.state.currentRoom == dest
      && r.state.inventory == w.state.inventory
  {
    var e := Say(w, "> " + direction);
    StepWord(w, direction);
    MoveOutcome(e, direction);
    MoveKeepsConsistent(e, direction);
  }

  /** Typing `use door` in the corridor with the keycard opens the way north
      to the mainframe and keeps the inventory. */
  lemma TypeUseDoor(w: World)
    requires Consistent(w) && !w.state.gameOver && w.state.currentRoom == "corridor"
    requires "keycard" in w.state.inventory
    ensures var r := Step(w, "use" + " " + "door");
      && Consistent(r) && !r.state.gameOver
      && r.state == w.state
      && Lookup(r.rooms["corridor"].exits, "north") == Some("mainframe")
  {
    WalkthroughWords();
    var e := Say(w, "> " + ("use" + " " + "door"));
    StepVerbTarget(w, "use", "door");
    DispatchUse(e, "door");
    UseDoor(e);
    InteractKeepsConsistent(e, "door");
  }

  /** Typing `use button` in the mainframe with the manual wins the game and
      ends the log with the congratulation. */
  lemma TypeUseButton(w: World)
    requires Consistent(w) && !w.state.gameOver && w.state.currentRoom == "mainframe"
    requires "manual" in w.state.inventory
    ensures var r := Step(w, "use" + " " + "button");
      && r.state.gameOver && r.state.hasWon
      && LastLine(r, CongratulationsLine)
  {
    WalkthroughWords();
    var e := Say(w, "> " + ("use" + " " + "button"));
    StepVerbTarget(w, "use", "button");
    DispatchUse(e, "button");
    PressTheButton(e);
  }

  /** The last line the log holds is `line`. */
  predicate LastLine(w: World, line: string) {
    |w.output| > 0 && w.output[|w.output| - 1] == line
  }

  /** A shortest winning sequence of commands. */
  const Walkthrough: seq<string> :=
    ["take manual", "east", "take keycard", "west", "north", "use door", "north", "use button"]

  /** The two-word commands of the walk, spelled out. */
  lemma WalkthroughSpelling()
    ensures Walkthrough[0] == "take" + " " + "manual" && Walkthrough[2] == "take" + " " + "keycard"
    ensures Walkthrough[5] == "use" + " " + "door" && Walkthrough[7] == "use" + " " + "button"
    ensures Walkthrough[1] == "east" && Walkthrough[3] == "west"
    ensures Walkthrough[4] == "north" && Walkthrough[6] == "north"
  {
  }

  /** Running the walk from its `k`-th command is one step and then the rest. */
  lemma RunFrom(w: World, k: nat)
    requires WellFormed(w) && k < |Walkthrough|
    ensures Run(w, Walkthrough[k..]) == Run(Step(w, Walkthrough[k]), Walkthrough[k + 1..])
  {
    assert Walkthrough[k..][1..] == Walkthrough[k + 1..];
  }

  /** Where the first three commands of the walk lead: both items are held,
      the player stands in the server room and the exits are as authored. */
  predicate ItemsCollected(w: World) {
    && Consistent(w) && !w.state.gameOver
    && w.state.currentRoom == "server"
    && "manual" in w.state.inventory && "keycard" in w.state.inventory
    && AuthoredExits(w.rooms)
  }

  /** `take manual`, `east`, `take keycard` from a new game. */
  lemma CollectItems(w: World)
    requires Opening(w)
    ensures ItemsCollected(Step(Step(Step(w, Walkthrough[0]), Walkthrough[1]), Walkthrough[2]))
  {
    WalkthroughWords();
    WalkthroughDirections();
    WalkthroughSpelling();
    TypeTake(w, "manual");
    var w1 := Step(w, Walkthrough[0]);
    assert Lookup(w1.rooms["start"].exits, "east") == Some("server");
    TypeDirection(w1, "east", "server");
    var w2 := Step(w1, Walkthrough[1]);
    assert w2.rooms["server"] == w.rooms["server"];
    TypeTake(w2, "keycard");
  }

  /** Running the walk from its last command is that one step. */
  lemma RunLast(w: World)
    requires WellFormed(w)
    ensures Run(w, Walkthrough[7..]) == Step(w, Walkthrough[7])
  {
    RunFrom(w, 7);
    assert Walkthrough[8..] == [];
  }

  /** Where `west`, `north` lead from there: the corridor, both items still
      held. */
  predicate AtLockedDoor(w: World) {
    && Consistent(w) && !w.state.gameOver
    && w.state.currentRoom == "corridor"
    && "manual" in w.state.inventory && "keycard" in w.state.inventory
  }

  /** `west`, `north` from the server room with both items. */
  lemma BackToCorridor(w: World)
    requires ItemsCollected(w)
    ensures AtLockedDoor(Step(Step(w, Walkthrough[3]), Walkthrough[4]))
  {
    WalkthroughWords();
    WalkthroughDirections();
    WalkthroughSpelling();
    assert Lookup(w.rooms["server"].exits, "west") == Some("start");
    TypeDirection(w, "west", "start");
    var w4 := Step(w, Walkthrough[3]);
    assert Lookup(w4.rooms["start"].exits, "north") == Some("corridor");
    TypeDirection(w4, "north", "corridor");
  }

  /** `use door`, `north`, `use button` from the corridor win the game. */
  lemma OpenDoorPressButton(w: World)
    requires AtLockedDoor(w)
    ensures var r := Run(w, Walkthrough[5..]);
      r.state.gameOver && r.state.hasWon && LastLine(r, CongratulationsLine)
  {
    WalkthroughWords();
    WalkthroughDirections();
    WalkthroughSpelling();
    TypeUseDoor(w);
    var w6 := Step(w, Walkthrough[5]);
    TypeDirection(w6, "north", "mainframe");
    var w7 := Step(w6, Walkthrough[6]);
    TypeUseButton(w7);
    RunFrom(w, 5);
    RunFrom(w6, 6);
    RunLast(w7);
  }

  /** `west`, `north`, `use door`, `north`, `use button` from there win the
      game, and the last line printed is the congratulation. */
  lemma ReachMainframe(w: World)
    requires ItemsCollected(w)
    ensures var r := Run(w, Walkthrough[3..]);
      r.state.gameOver && r.state.hasWon && LastLine(r, CongratulationsLine)
  {
    var w4 := Step(w, Walkthrough[3]);
    RunFrom(w, 3);
    RunFrom(w4, 4);
    BackToCorridor(w);
    OpenDoorPressButton(Step(w4, Walkthrough[4]));
  }

  /** Typing the walk into a new game wins it, and the last line printed is
      the congratulation. */
  lemma WinningRun(w: World)
    requires Opening(w)
    ensures var r := Run(w, Walkthrough);
      r.state.gameOver && r.state.hasWon && LastLine(r, CongratulationsLine)
  {
    RunFirstThree(w);
    CollectItems(w);
    ReachMainframe(Step(Step(Step(w, Walkthrough[0]), Walkthrough[1]), Walkthrough[2]));
  }

  /** Running the walk is its first three steps and then the rest. */
  lemma RunFirstThree(w: World)
    requires WellFormed(w)
    ensures Run(w, Walkthrough) == Run(Step(Step(Step(w, Walkthrough[0]), Walkthrough[1]), Walkthrough[2]), Walkthrough[3..])
  {
    var w1 := Step(w, Walkthrough[0]);
    var w2 := Step(w1, Walkthrough[1]);
    assert Walkthrough[0..] == Walkthrough;
    RunFrom(w, 0);
    RunFrom(w1, 1);
    RunFrom(w2, 2);
  }

  /** And that is what happens in the game as the service creates it. */
  lemma NewGameIsWinnable()
    ensures Consistent(InitialWorld())
    ensures var r := Run(InitialWorld(), Walkthrough);
      r.state.gameOver && r.state.hasWon
  {
    InitialWorldOpens();
    WinningRun(InitialWorld());
  }
}
