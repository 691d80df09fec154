/** `TerminalComponent` of src/app/terminal/terminal.component.ts, the earlier
    terminal: the same history and browsing as the component terminal, a word
    list of thirteen commands without `color` and `theme`, and no
    `commandEntered` event. Its service (src/app/game.service.ts) is not part
    of this model, so the commands it is handed are kept as a log. */
module LegacyTerminal {
  import opened JsText
  import opened CommandHistory

  /** The words Tab completes to, in the order this terminal lists them. */
  const CommonCommands: seq<string> := [
    "help", "look", "go", "north", "south", "east", "west",
    "take", "inventory", "use", "examine", "restart", "clear"
  ]

  /** Every word of the list is in lower case. */
  lemma WordsAreLowerCase()
    ensures LowerCaseWords(CommonCommands)
  {
  }

  /** The list names each command once. */
  lemma WordsAreDistinct()
    ensures Distinct(CommonCommands)
  {
  }

  /** Tab only ever puts one of the listed words that starts with the
      lower-cased input, or the input itself, in the box, and a second Tab
      keeps what the first gave. */
  lemma TabOutcome(command: string)
    ensures var r := Complete(CommonCommands, command);
      && (r == command || (r in CommonCommands && StartsWith(r, ToLower(command))))
      && Complete(CommonCommands, r) == r
  {
    WordsAreLowerCase();
    CompleteOutcome(CommonCommands, command);
  }

  /** `clear` is the only listed word that starts with `c`. */
  lemma OnlyClearStartsWithC()
    ensures forall x | x in CommonCommands && |x| > 0 && x[0] == 'c' :: x == "clear"
  {
  }

  /** `take` is the only listed word that starts with `t`. */
  lemma OnlyTakeStartsWithT()
    ensures forall x | x in CommonCommands && |x| > 0 && x[0] == 't' :: x == "take"
  {
  }

  /** Without `color` and `theme` in the list, `c` completes to `clear` and `T`
      to `take`, while `e` stays as typed because `east` and `examine` both
      start with it. */
  lemma SingleLetterCompletions()
    ensures Complete(CommonCommands, "c") == "clear"
    ensures Complete(CommonCommands, "T") == "take"
    ensures Complete(CommonCommands, "e") == "e"
  {
    assert ToLower("c") == "c" && ToLower("T") == "t" && ToLower("e") == "e";
    WordsAreDistinct();
    OnlyClearStartsWithC();
    OnlyTakeStartsWithT();
    forall x | x in CommonCommands
      ensures StartsWith(x, "c") <==> |x| > 0 && x[0] == 'c'
      ensures StartsWith(x, "t") <==> |x| > 0 && x[0] == 't'
    {
      StartsWithLetter(x, 'c');
      StartsWithLetter(x, 't');
    }
    StartsWithLetter("clear", 'c');
    StartsWithLetter("take", 't');
    CompleteUnique(CommonCommands, "c", "clear");
    CompleteUnique(CommonCommands, "T", "take");
    StartsWithLetter("east", 'e');
    StartsWithLetter("examine", 'e');
    CompleteAmbiguous(CommonCommands, "e", "east", "examine");
  }

  class TerminalComponent {
    var command: string
    var commandHistory: seq<string>
    var historyIndex: int
    /** Every command passed to `gameService.processCommand`, oldest first. */
    var processed: seq<string>

    /** The browse position points into the history or is -1, and the history
        is within its cap and holds only commands with some text. */
    ghost predicate Valid()
      reads this
    {
      && IndexInRange(commandHistory, historyIndex)
      && |commandHistory| <= MaxHistory
      && NonBlankEntries(commandHistory)
    }

    /** The field initialisers. */
    constructor ()
      ensures Valid()
      ensures command == "" && commandHistory == [] && historyIndex == -1 && processed == []
    {
      command := "";
      commandHistory := [];
      historyIndex := -1;
      processed := [];
    }

    /** `onKeyDown(event)`: Tab completes the box against this terminal's word
        list, the other keys browse the history as `Browse` says; the history
        and the commands handed on are untouched. */
    method OnKeyDown(key: Key)
      requires Valid()
      modifies this
      ensures Valid()
      ensures key == Tab ==> command == Complete(CommonCommands, old(command)) && historyIndex == old(historyIndex)
      ensures key != Tab ==> Prompt(command, historyIndex) == Browse(old(commandHistory), Prompt(old(command), old(historyIndex)), key)
      ensures commandHistory == old(commandHistory) && processed == old(processed)
    {
      match key {
        case ArrowUp =>
          if historyIndex < |commandHistory| - 1 {
            historyIndex := historyIndex + 1;
            command := commandHistory[|commandHistory| - 1 - historyIndex];
          }
        case ArrowDown =>
          if historyIndex > 0 {
            historyIndex := historyIndex - 1;
            command := commandHistory[|commandHistory| - 1 - historyIndex];
          } else if historyIndex == 0 {
            historyIndex := -1;
            command := "";
          }
        case Tab =>
          var matchingCommands := Matches(CommonCommands, ToLower(command));
          if |matchingCommands| == 1 {
            command := matchingCommands[0];
          }
        case OtherKey =>
      }
    }

    /** `executeCommand()`: a command with some text is recorded, browsing
        stops, the command is handed to the game and the box is emptied; a
        blank box changes nothing. */
    method ExecuteCommand()
      requires Valid()
      modifies this
      ensures Valid()
      ensures IsBlank(old(command)) ==>
        && command == old(command)
        && commandHistory == old(commandHistory)
        && historyIndex == old(historyIndex)
        && processed == old(processed)
      ensures !IsBlank(old(command)) ==>
        && command == ""
        && commandHistory == Recorded(old(commandHistory), old(command))
        && historyIndex == -1
        && processed == old(processed) + [old(command)]
    {
      if !IsBlank(command) {
        RecordedShape(commandHistory, command);
        RecordedNonBlank(commandHistory, command);
        commandHistory := commandHistory + [command];
        if |commandHistory| > MaxHistory {
          commandHistory := commandHistory[1..];
        }
        historyIndex := -1;
        processed := processed + [command];
        command := "";
      }
    }
  }
}
