/** `GameService` of src/app/services/game.service.ts: a room table, a game state
    and an output log that the command interpreter updates in place. Each method
    ends in the world that the matching function of GameModel computes from the
    world it started in. */
module Services {
  import opened JsText
  import opened GameModel

  class GameService {
    var rooms: map<string, Room>
    var state: GameState
    var output: seq<string>

    /** The three fields as one value. */
    function Snapshot(): World
      reads this
    {
      World(rooms, state, output)
    }

    ghost predicate Valid()
      reads this
    {
      WellFormed(Snapshot())
    }

    /** The field initialisers: the authored rooms, a new game and the welcome banner. */
    constructor ()
      ensures Valid() && Snapshot() == InitialWorld()
    {
      rooms := InitialRooms;
      state := InitialState;
      var room := InitialRooms["start"];
      output := Banner(LocationDescription(room));
    }

    /** `addOutput(message)` */
    method AddOutput(message: string)
      modifies this
      ensures rooms == old(rooms) && state == old(state)
      ensures output == old(output) + [message]
    {
      output := output + [message];
    }

    /** `getLocationDescription()` */
    method GetLocationDescription() returns (description: string)
      requires state.currentRoom in rooms
      ensures description == Here(Snapshot())
    {
      var room := rooms[state.currentRoom];
      description := "== " + room.name + " ==\n" + room.description;
      if |room.items| > 0 {
        description := description + "\nYou see: " + Join(room.items, ", ");
      }
      var exits := Keys(room.exits);
      if |exits| > 0 {
        description := description + "\nExits: " + Join(exits, ", ");
      }
    }

    /** `processCommand(input)` */
    method ProcessCommand(input: string)
      requires Valid()
      modifies this
      ensures Valid() && Snapshot() == Step(old(Snapshot()), input)
    {
      if state.gameOver {
        AddOutput(GameOverLine);
        return;
      }
      var command := Trim(ToLower(input));
      var parts := Split(command, ' ');
      var action := parts[0];
      var target := Join(parts[1..], " ");
      AddOutput("> " + input);
      match HandlerOf(action) {
        case ShowHelpHandler => ShowHelp();
        case LookHandler =>
          var description := GetLocationDescription();
          AddOutput(description);
        case GoHandler => Move(target);
        case DirectionHandler => Move(action);
        case TakeHandler => TakeItem(target);
        case InventoryHandler => ShowInventory();
        case UseHandler => Interact(target);
        case ExamineHandler => Examine(target);
        case RestartHandler => RestartGame();
        case ClearHandler => ClearOutput();
        case UnknownHandler => AddOutput(UnknownCommandLine);
      }
    }

    /** `showHelp()` */
    method ShowHelp()
      modifies this
      ensures Snapshot() == Say(old(Snapshot()), HelpText)
    {
      AddOutput(HelpText);
    }

    /** `move(direction)` */
    method Move(direction: string)
      requires Valid()
      modifies this
      ensures Valid() && Snapshot() == GameModel.Move(old(Snapshot()), direction)
    {
      var room := rooms[state.currentRoom];
      var target := ExitTarget(room.exits, direction);
      if target.Some? {
        var newRoom := target.value;
        var visited := state.visited;
        if newRoom !in visited {
          visited := visited + {newRoom};
        }
        state := state.(currentRoom := newRoom, visited := visited);
        AddOutput("You move " + direction + ".");
        var description := GetLocationDescription();
        AddOutput(description);
      } else {
        AddOutput("You can't go " + direction + " from here.");
      }
    }

    /** Runs the interaction closure `e` on the state and the room table and
        returns the line it produces. */
    method RunInteraction(e: Effect) returns (result: string)
      requires Valid()
      modifies this
      ensures Valid() && (Snapshot(), result) == ApplyEffect(old(Snapshot()), e)
    {
      match e {
        case PickUpManual =>
          if "manual" in state.inventory {
            return ManualAlreadyLine;
          }
          state := state.(inventory := state.inventory + ["manual"]);
          rooms := rooms["start" := rooms["start"].(items := Without(rooms["start"].items, "manual"))];
          result := ManualTakenLine;
        case PickUpKeycard =>
          if "keycard" in state.inventory {
            return KeycardAlreadyLine;
          }
          state := state.(inventory := state.inventory + ["keycard"]);
          rooms := rooms["server" := rooms["server"].(items := Without(rooms["server"].items, "keycard"))];
          result := KeycardTakenLine;
        case OperateTerminal =>
          if "manual" in state.inventory {
            return TerminalSuccessLine;
          }
          result := TerminalLockedLine;
        case UnlockDoor =>
          if "keycard" in state.inventory {
            var corridor := rooms["corridor"];
            rooms := rooms["corridor" := corridor.(exits := SetExit(corridor.exits, "north", "mainframe"))];
            return DoorUnlockedLine;
          }
          result := DoorLockedLine;
        case PressButton =>
          if "manual" in state.inventory {
            state := state.(gameOver := true, hasWon := true);
            return ButtonSuccessLine;
          }
          result := ButtonUnsureLine;
      }
    }

    /** `takeItem(itemName)` */
    method TakeItem(itemName: string)
      requires Valid()
      modifies this
      ensures Valid() && Snapshot() == GameModel.TakeItem(old(Snapshot()), itemName)
    {
      var room := rooms[state.currentRoom];
      if itemName == "" {
        AddOutput("Take what?");
        return;
      }
      if itemName in room.items {
        if itemName in room.interactions {
          var result := RunInteraction(room.interactions[itemName]);
          AddOutput(result);
        } else {
          var inventory := state.inventory + [itemName];
          var updatedItems := Without(room.items, itemName);
          rooms := rooms[state.currentRoom := room.(items := updatedItems)];
          state := state.(inventory := inventory);
          AddOutput("You take the " + itemName + ".");
        }
      } else {
        AddOutput("There is no " + itemName + " here.");
      }
    }

    /** `showInventory()` */
    method ShowInventory()
      modifies this
      ensures Snapshot() == GameModel.ShowInventory(old(Snapshot()))
    {
      if |state.inventory| == 0 {
        AddOutput("Your inventory is empty.");
      } else {
        AddOutput("Inventory: " + Join(state.inventory, ", "));
      }
    }

    /** `interact(target)` */
    method Interact(target: string)
      requires Valid()
      modifies this
      ensures Valid() && Snapshot() == GameModel.Interact(old(Snapshot()), target)
    {
      var room := rooms[state.currentRoom];
      if target == "" {
        AddOutput("Use what?");
        return;
      }
      if target in room.interactions {
        var result := RunInteraction(room.interactions[target]);
        AddOutput(result);
        if state.gameOver {
          if state.hasWon {
            AddOutput(CongratulationsLine);
          } else {
            AddOutput(TryAgainLine);
          }
        }
      } else {
        AddOutput("You can't use " + target + " here.");
      }
    }

    /** `examine(target)` */
    method Examine(target: string)
      requires Valid()
      modifies this
      ensures Valid() && Snapshot() == GameModel.Examine(old(Snapshot()), target)
    {
      var room := rooms[state.currentRoom];
      if target == "" {
        AddOutput("Examine what?");
        return;
      }
      if target in room.items {
        AddOutput(ExamineText(target));
      } else if target in state.inventory {
        AddOutput(ExamineText(target));
      } else {
        AddOutput("You don't see a " + target + " here.");
      }
    }

    /** `restartGame()` */
    method RestartGame()
      requires Valid()
      modifies this
      ensures Valid() && Snapshot() == GameModel.RestartGame(old(Snapshot()))
    {
      state := InitialState;
      ClearOutput();
      AddOutput(WelcomeLine);
      AddOutput(HelpHintLine);
      AddOutput("");
      var description := GetLocationDescription();
      AddOutput(description);
    }

    /** `clearOutput()` */
    method ClearOutput()
      modifies this
      ensures Snapshot() == GameModel.ClearOutput(old(Snapshot()))
    {
      output := [];
    }
  }
}
