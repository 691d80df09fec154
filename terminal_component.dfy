/** `TerminalComponent` of src/app/components/terminal/terminal.component.ts: the
    input box, the capped command history and the browse position, which key
    presses and Enter update in place, and the `GameService` the component hands
    each entered command to. */
module Components {
  import opened JsText
  import opened GameModel
  import opened CommandHistory
  import Services
  import LegacyTerminal

  /** The words Tab completes to, in the order the component lists them. */
  const CommonCommands: seq<string> := [
    "help", "look", "go", "north", "south", "east", "west",
    "take", "inventory", "use", "examine", "restart", "clear",
    "color", "theme"
  ]

  /** Every word of the list is in lower case. */
  lemma WordsAreLowerCase()
    ensures LowerCaseWords(CommonCommands)
  {
  }

  /** Tab only ever puts one of the listed words that starts with the
      lower-cased input, or the input itself, in the box, and a second Tab
      keeps what the first gave. */
  lemma TabOutcome(command: string)
    ensures var r := Complete(CommonCommands, command);
      && (r == command || (r in CommonCommands && StartsWith(r, ToLower(command))))
      && Complete(CommonCommands, r) == r
  {
    WordsAreLowerCase();
    CompleteOutcome(CommonCommands, command);
  }

  /** The list is the earlier terminal's list with `color` and `theme` added
      at the end. */
  lemma ExtendsLegacyWords()
    ensures CommonCommands == LegacyTerminal.CommonCommands + ["color", "theme"]
  {
  }

  /** Both terminals complete an input alike unless it is the start of `color`
      or `theme`. */
  lemma SameCompletionAsLegacy(command: string)
    requires !StartsWith("color", ToLower(command)) && !StartsWith("theme", ToLower(command))
    ensures Complete(CommonCommands, command) == Complete(LegacyTerminal.CommonCommands, command)
  {
    ExtendsLegacyWords();
    CompleteExtended(LegacyTerminal.CommonCommands, ["color", "theme"], command);
  }

  /** With `color` and `theme` added, `c` and `T` stay as typed, where the
      earlier terminal completes them to `clear` and `take`. */
  lemma SingleLetterCompletions()
    ensures Complete(CommonCommands, "c") == "c" && Complete(LegacyTerminal.CommonCommands, "c") == "clear"
    ensures Complete(CommonCommands, "T") == "T" && Complete(LegacyTerminal.CommonCommands, "T") == "take"
  {
    assert ToLower("c") == "c" && ToLower("T") == "t";
    StartsWithLetter("clear", 'c');
    StartsWithLetter("color", 'c');
    StartsWithLetter("take", 't');
    StartsWithLetter("theme", 't');
    CompleteAmbiguous(CommonCommands, "c", "clear", "color");
    CompleteAmbiguous(CommonCommands, "T", "take", "theme");
    LegacyTerminal.SingleLetterCompletions();
  }

  class TerminalComponent {
    var command: string
    var commandHistory: seq<string>
    var historyIndex: int
    /** Every value passed to `commandEntered.emit`, oldest first. */
    var emitted: seq<string>
    const gameService: Services.GameService

    /** The browse position points into the history or is -1, the history is
        within its cap and holds only non-blank commands, and the service is in
        a well-formed world. */
    ghost predicate Valid()
      reads this, gameService
    {
      && gameService.Valid()
      && IndexInRange(commandHistory, historyIndex)
      && |commandHistory| <= MaxHistory
      && NonBlankEntries(commandHistory)
    }

    /** The field initialisers, with the service the component is given. */
    constructor (gameService: Services.GameService)
      requires gameService.Valid()
      ensures Valid() && this.gameService == gameService
      ensures command == "" && commandHistory == [] && historyIndex == -1 && emitted == []
    {
      command := "";
      commandHistory := [];
      historyIndex := -1;
      emitted := [];
      this.gameService := gameService;
    }

    /** `onKeyDown(event)`: Tab completes the box against this component's
        word list, the other keys browse the history as `Browse` says; the
        history, the emitted values and the game are untouched. */
    method OnKeyDown(key: Key)
      requires Valid()
      modifies this
      ensures Valid()
      ensures key == Tab ==> command == Complete(CommonCommands, old(command)) && historyIndex == old(historyIndex)
      ensures key != Tab ==> Prompt(command, historyIndex) == Browse(old(commandHistory), Prompt(old(command), old(historyIndex)), key)
      ensures commandHistory == old(commandHistory) && emitted == old(emitted)
    {
      match key {
        case ArrowUp =>
          if historyIndex < |commandHistory| - 1 {
            historyIndex := historyIndex + 1;
            command := commandHistory[|commandHistory| - 1 - historyIndex];
          }
        case ArrowDown =>
          if historyIndex > 0 {
            historyIndex := historyIndex - 1;
            command := commandHistory[|commandHistory| - 1 - historyIndex];
          } else if historyIndex == 0 {
            historyIndex := -1;
            command := "";
          }
        case Tab =>
          var matchingCommands := Matches(CommonCommands, ToLower(command));
          if |matchingCommands| == 1 {
            command := matchingCommands[0];
          }
        case OtherKey =>
      }
    }

    /** `executeCommand()`: the box is emitted whatever it holds; a command with
        something besides white space is then recorded, browsing stops, the game
        takes one step on it and the box is emptied. A blank box changes
        nothing else. */
    method ExecuteCommand()
      requires Valid()
      modifies this, gameService
      ensures Valid()
      ensures emitted == old(emitted) + [old(command)]
      ensures IsBlank(old(command)) ==>
        && command == old(command)
        && commandHistory == old(commandHistory)
        && historyIndex == old(historyIndex)
        && gameService.Snapshot() == old(gameService.Snapshot())
      ensures !IsBlank(old(command)) ==>
        && command == ""
        && commandHistory == Recorded(old(commandHistory), old(command))
        && historyIndex == -1
        && gameService.Snapshot() == Step(old(gameService.Snapshot()), old(command))
    {
      emitted := emitted + [command];
      if !IsBlank(command) {
        RecordedShape(commandHistory, command);
        RecordedNonBlank(commandHistory, command);
        commandHistory := commandHistory + [command];
        if |commandHistory| > MaxHistory {
          commandHistory := commandHistory[1..];
        }
        historyIndex := -1;
        gameService.ProcessCommand(command);
        command := "";
      }
    }
  }
}
