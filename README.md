# Terminal Adventure, modelled in Dafny

Terminal Adventure is a small text adventure that runs in a web terminal. This
project models its core:

- **The game service.** It holds a room table, the player's state and an output
  log. `processCommand` parses each typed line, echoes it and dispatches it to
  the matching handler. The handlers are `look`, the moves, `take`, `inventory`,
  `use`, `examine`, `restart`, `clear` and `help`.
- **The two terminal components.** Each keeps an input box, a history of at most
  20 entered commands and a browse position. Each answers ArrowUp, ArrowDown,
  Tab completion and Enter.
- **The two line-format pipes.** Each turns one line of game output into HTML
  spans.

The modules are:

- `JsText` (js_text.dfy): the JavaScript string built-ins the code relies on,
  namely `trim`, `toLowerCase`, `split`, `join`, `startsWith`, `includes`,
  `indexOf`, global `replace` and the span template.
- `GameModel` (game_model.dfy): the world as values. There is one function per
  service operation and one constructor per interaction closure. A world is the
  room table, the state and the log.
- `Services` (game_service.dfy): the class `GameService`. Its fields `rooms`,
  `state` and `output` are updated in place. Each method's new state is the
  `GameModel` function of the old one.
- `GameProperties` (game_properties.dfy): what the interpreter promises.
  - the game-over gate, the echo, and the outcomes of moving, taking, using,
    restarting and clearing;
  - the consistency invariant every command keeps;
  - typing the eight-command walkthrough into a new game wins it.
- `CommandHistory` (command_history.dfy): the history and Tab-completion
  behaviour both terminals share.
- `Components` (terminal_component.dfy): the terminal under
  `src/app/components/terminal`. It has a 15-word completion list and emits every
  entry, blank ones too.
- `LegacyTerminal` (legacy_terminal.dfy): the older terminal under
  `src/app/terminal`. It has a 13-word list and no emitter.
- `NestedLineFormat` (line_format_nested.dfy): `src/app/line-format.pipe.ts`.
  Its tests are independent, so one line can be wrapped in several spans, and
  every newline becomes `<br>`.
- `ExclusiveLineFormat` (line_format_exclusive.dfy): `src/app/pipes/line-format.pipe.ts`.
  It is an else-if chain, so a line gets at most one span. Its title test is
  `/^==\s.*\s==$/`.
- `LineFormatComparison` (line_format_comparison.dfy): the two pipes on the lines
  the game actually writes.

The code is followed wherever it differs from its own documentation:

- Once the game is over, every input is refused, `restart` included.
- `restartGame` resets the state and the log but keeps the room table as the
  play left it. So `take` cannot recover an item taken before the restart,
  while `use`, whose pick-up closures test only the inventory, hands the item
  back although the room no longer lists it.
- `move` prints the full description of a room on every entry, including
  repeat visits.
- The interaction closures name the rooms `start`, `server` and `corridor`
  directly.

## Model

| member | source | states |
|---|---|---|
| JsText.TrimStart | src/app/services/game.service.ts:160 | the result is a suffix of the input, everything dropped before it is white space (line terminators included), and it is empty or does not start with white space |
| JsText.TrimEnd | src/app/services/game.service.ts:160 | the result is a prefix of the input, everything dropped after it is white space (line terminators included), and it is empty or does not end with white space |
| JsText.TrimShape | src/app/services/game.service.ts:160 | `trim()` returns a contiguous slice of its input that neither starts nor ends with white space |
| JsText.BlankIffAllWhiteSpace | src/app/components/terminal/terminal.component.ts:93 | `command.trim()` is the empty string exactly when every character of the command is ECMAScript white space or a line terminator |
| JsText.LowerOfLower | src/app/services/game.service.ts:160 | `toLowerCase()` leaves a string without capital letters unchanged |
| JsText.LowerKeepsWhiteSpace | src/app/services/game.service.ts:160 | lower-casing a character neither creates nor removes white space, so lower-casing and trimming commute |
| JsText.TrimOfTrimmed | src/app/services/game.service.ts:160 | `trim()` leaves a string alone when it neither starts nor ends with white space |
| JsText.Split | src/app/services/game.service.ts:161 | `split(c)` yields at least one piece, and no piece contains `c` |
| JsText.JoinSplit | src/app/services/game.service.ts:161-163 | joining the pieces of `split(c)` with `c` gives back the original string |
| JsText.SplitAtFirst | src/app/services/game.service.ts:161-163 | the first piece ends at the first separator, and the other pieces joined again are exactly the text after that separator |
| JsText.SplitWithout | src/app/services/game.service.ts:161 | a string without the separator splits into itself alone |
| JsText.SplitCons | src/app/line-format.pipe.ts:19 | splitting `a + c + b`, where `a` has no `c`, gives `a` and then the pieces of `b` |
| JsText.JoinWithout | src/app/services/game.service.ts:163 | joining pieces that lack a character, with a separator that lacks it, gives a string without it |
| JsText.JoinEndsWithLast | src/app/services/game.service.ts:163 | a join ends with its last piece |
| JsText.ReplaceAll | src/app/line-format.pipe.ts:52 | `replace(/\n/g, r)` leaves no newline when `r` has none |
| JsText.ReplaceAllAppend | src/app/line-format.pipe.ts:52 | replacing every occurrence distributes over concatenation |
| JsText.ReplaceAllWithout | src/app/line-format.pipe.ts:52 | a string without the character is left unchanged |
| JsText.ReplaceAllContains | src/app/line-format.pipe.ts:52 | a substring is still there, with its own newlines replaced, after the replacement |
| JsText.ReplaceAllLength | src/app/line-format.pipe.ts:52 | replacing with a text of two or more characters, such as `<br>`, never shortens a string, and lengthens it whenever the character occurs |
| JsText.ReplaceInSpan | src/app/line-format.pipe.ts:48-52 | replacing the newlines of a span replaces those of its body and keeps the tag |
| JsText.ReplaceAfterSpan | src/app/line-format.pipe.ts:23-52 | a span followed by a newline becomes that span followed by `<br>` |
| JsText.SpanStartsWithTag | src/app/line-format.pipe.ts:48 | the span template starts with its opening tag |
| JsText.SpanContains | src/app/line-format.pipe.ts:28-48 | wrapping in a span keeps every substring of the body |
| GameModel.Keys | src/app/services/game.service.ts:144 | `Object.keys(exits)` lists every own key once per entry, in insertion order, as `Object.keys` does for the non-numeric keys the rooms use |
| GameModel.Lookup | src/app/services/game.service.ts:233-234 | the own property read is missing exactly when the key is not among `Object.keys`, and a value found is stored under that key |
| GameModel.SetExit | src/app/services/game.service.ts:69-75 | after `exits.north = 'mainframe'` every entry is the new pair or one the exits already had |
| GameModel.SetExitLookup | src/app/services/game.service.ts:69-75 | after the assignment the key reads the new destination and every other key reads as before |
| GameModel.SetExitKeys | src/app/services/game.service.ts:69-75 | the assignment keeps the key order, and a new key goes last |
| GameModel.SetExitIdempotent | src/app/services/game.service.ts:69-75 | assigning twice is assigning once, and assigning the value already there changes nothing |
| GameModel.Without | src/app/services/game.service.ts:265 | `items.filter(item => item !== x)` removes every `x`, keeps every other item, adds none and never grows the list |
| GameModel.Parse | src/app/services/game.service.ts:160-163 | reference definition, no contract: the verb is the first piece of the lower-cased, trimmed line split on spaces, and the target is the other pieces joined by spaces |
| GameModel.LocationDescription | src/app/services/game.service.ts:134-150 | reference definition, no contract: the title line, the description, then `You see:` only with items and `Exits:` only with exits |
| GameModel.InitialWorld | src/app/services/game.service.ts:24-109 | reference definition, no contract: the authored rooms, the initial state and the four-line welcome log |
| GameModel.MoveAsWritten | src/app/services/game.service.ts:229-247 | reference definition, no contract: `move` with the exit read through the prototype chain, failing where an inherited member becomes the room |
| GameModel.ShowInventory | src/app/services/game.service.ts:276-284 | reference definition, no contract: appends `Your inventory is empty.` or `Inventory: ` and the comma-joined items |
| GameModel.Examine | src/app/services/game.service.ts:312-346 | reference definition, no contract: "Examine what?", the item's text when it is in the room or held, otherwise "You don't see a x here." |
| GameModel.ClearOutput | src/app/services/game.service.ts:364-366 | reference definition, no contract: empties the log |
| GameModel.Move | src/app/services/game.service.ts:229-247 | a move keeps the world well formed: the four rooms exist, the player stands in a room and every exit leads to a room |
| GameModel.ApplyEffect | src/app/services/game.service.ts:24-94 | an interaction closure keeps the room table well formed and writes nothing to the log itself |
| GameModel.TakeItem | src/app/services/game.service.ts:249-274 | taking keeps every room lookup defined |
| GameModel.Interact | src/app/services/game.service.ts:286-310 | using keeps every room lookup defined |
| GameModel.RestartGame | src/app/services/game.service.ts:348-362 | a restart keeps every room lookup defined |
| GameModel.HandlerOf | src/app/services/game.service.ts:167-211 | a verb falls to the `default` branch exactly when it is none of the `case` labels |
| GameModel.Dispatch | src/app/services/game.service.ts:167-211 | every branch of the `switch` keeps every room lookup defined |
| GameModel.Step | src/app/services/game.service.ts:152-212 | `processCommand` keeps every room lookup defined |
| Services.GameService.constructor | src/app/services/game.service.ts:24-109 | a new service holds the authored rooms, the state of a new game and the four-line welcome log ending in the start room's description |
| Services.GameService.AddOutput | src/app/services/game.service.ts:129-132 | the message is appended to the log, and nothing else changes |
| Services.GameService.GetLocationDescription | src/app/services/game.service.ts:134-150 | returns the title line, the description, then `You see:` only when there are items and `Exits:` only when there are exits |
| Services.GameService.ProcessCommand | src/app/services/game.service.ts:152-212 | the new rooms, state and log are `Step` of the old ones |
| Services.GameService.ShowHelp | src/app/services/game.service.ts:214-227 | appends the help text |
| Services.GameService.Move | src/app/services/game.service.ts:229-247 | the new world is `GameModel.Move` of the old one |
| Services.GameService.RunInteraction | src/app/services/game.service.ts:24-94 | running a closure changes the world and returns the line as `ApplyEffect` says |
| Services.GameService.TakeItem | src/app/services/game.service.ts:249-274 | the new world is `GameModel.TakeItem` of the old one |
| Services.GameService.ShowInventory | src/app/services/game.service.ts:276-284 | appends `Your inventory is empty.` or the `Inventory:` line |
| Services.GameService.Interact | src/app/services/game.service.ts:286-310 | the new world is `GameModel.Interact` of the old one |
| Services.GameService.Examine | src/app/services/game.service.ts:312-346 | the new world is `GameModel.Examine` of the old one |
| Services.GameService.RestartGame | src/app/services/game.service.ts:348-362 | the new world is `GameModel.RestartGame` of the old one |
| Services.GameService.ClearOutput | src/app/services/game.service.ts:364-366 | the log is emptied, and nothing else changes |
| GameProperties.Run | src/app/services/game.service.ts:152-212 | any number of commands keeps every room lookup defined |
| GameProperties.InitialRoomAuthored | src/app/services/game.service.ts:24-94 | each authored room has its own closures, its items at home and exits that lead to rooms |
| GameProperties.InitialTablesConsistent | src/app/services/game.service.ts:24-102 | the room table and the state of a new game are consistent |
| GameProperties.InitialWorldConsistent | src/app/services/game.service.ts:24-109 | the service's initial world is consistent |
| GameProperties.AppendFresh | src/app/services/game.service.ts:31-38 | pushing an item that is not yet held keeps the inventory free of duplicates |
| GameProperties.FewerItemsAuthored | src/app/services/game.service.ts:265-266 | removing items from a room keeps every item in its home room |
| GameProperties.NewExitsAuthored | src/app/services/game.service.ts:69-75 | changing exits keeps rooms and closures as authored |
| GameProperties.PickUpKeepsConsistent | src/app/services/game.service.ts:31-54 | moving an item from its home room into the inventory keeps the world consistent |
| GameProperties.EffectKeepsConsistent | src/app/services/game.service.ts:24-94 | every interaction closure keeps the world consistent |
| GameProperties.TakeKeepsConsistent | src/app/services/game.service.ts:249-274 | `take` keeps the world consistent |
| GameProperties.InteractKeepsConsistent | src/app/services/game.service.ts:286-310 | `use` keeps the world consistent |
| GameProperties.RestartKeepsConsistent | src/app/services/game.service.ts:348-362 | `restart` keeps the world consistent even though the rooms are not restored |
| GameProperties.DispatchQuiet | src/app/services/game.service.ts:167-211 | `help`, `look`, `inventory`, `examine`, `clear` and unknown verbs change neither the rooms nor the state |
| GameProperties.DispatchKeepsConsistent | src/app/services/game.service.ts:167-211 | every verb keeps the world consistent |
| GameProperties.MoveKeepsConsistent | src/app/services/game.service.ts:229-247 | moving keeps the world consistent |
| GameProperties.StepKeepsConsistent | src/app/services/game.service.ts:152-212 | every command keeps the world consistent |
| GameProperties.RunKeepsConsistent | src/app/services/game.service.ts:152-212 | every sequence of commands keeps the world consistent |
| GameProperties.ReachableWorlds | src/app/services/game.service.ts:96-212 | from a new game, whatever is typed, no item is held twice, the player stands in a room, and the game is over exactly when it is won |
| GameProperties.ParseAtFirstSpace | src/app/services/game.service.ts:160-163 | the verb is what precedes the first space of the lower-cased, trimmed line, and the target is all that follows it |
| GameProperties.LetterIsNotWhiteSpace | src/app/services/game.service.ts:160 | a lower-case letter is neither trimmed nor lower-cased |
| GameProperties.ParseWord | src/app/services/game.service.ts:160-163 | one lower-case word parses to that verb and an empty target |
| GameProperties.ParseVerbTarget | src/app/services/game.service.ts:160-163 | a lower-case verb, a space and a lower-case word parse to that verb and that target |
| GameProperties.GameOverGate | src/app/services/game.service.ts:155-158 | once the game is over, any input, `restart` included, appends exactly the game-over line and changes nothing else |
| GameProperties.OverIsFinal | src/app/services/game.service.ts:155-158 | once over, the game stays over, and `n` inputs append exactly `n` game-over lines |
| GameProperties.DispatchAppends | src/app/services/game.service.ts:167-211 | every verb except `restart` and `clear` keeps the log and adds at least one line |
| GameProperties.MoveAppends | src/app/services/game.service.ts:229-247 | a move keeps the log and adds to it |
| GameProperties.TakeAppends | src/app/services/game.service.ts:249-274 | `take` keeps the log and adds to it |
| GameProperties.InteractAppends | src/app/services/game.service.ts:286-310 | `use` keeps the log and adds to it |
| GameProperties.EchoComesFirst | src/app/services/game.service.ts:165 | while the game runs, for every verb other than `restart` and `clear`, the first new line is `> ` and the raw input, followed by at least one more line |
| GameProperties.UnknownVerb | src/app/services/game.service.ts:209-210 | an unknown verb appends the echo and the "I don't understand" line, and nothing else |
| GameProperties.MoveOutcome | src/app/services/game.service.ts:229-247 | through an exit: the destination becomes current and is added to `visited`, and "You move d." and its full description are printed even on a revisit; otherwise exactly the refusal is printed and nothing else changes |
| GameProperties.MoveAsWrittenAgrees | src/app/services/game.service.ts:233-234 | for every direction that is an own exit, or is not a name every object inherits, the move as written is `GameModel.Move` |
| GameProperties.LowerCasePrototypeNames | src/app/services/game.service.ts:160 | of the names every object inherits, exactly `constructor` and `__proto__` are their own lower-case form, so only they survive the lower-casing of the typed line |
| GameProperties.PrototypeDirectionThrows | src/app/services/game.service.ts:233-243 | for an inherited name that is not an exit, the move as written throws, while `GameModel.Move` prints the refusal |
| GameProperties.GoPrototypeDirection | src/app/services/game.service.ts:174-177 | typing `go constructor` throws as written and prints the refusal in this model |
| GameProperties.DispatchGo | src/app/services/game.service.ts:174-178 | `go d` is `move(d)` |
| GameProperties.GoIsBareDirection | src/app/services/game.service.ts:174-184 | `go`, `move` and `walk` with a compass direction do what the bare direction does, and anything after a bare direction is ignored |
| GameProperties.RefusedTargets | src/app/services/game.service.ts:249-310 | an empty target gets "Take what?" or "Use what?", and a keyword without an interaction gets "You can't use x here.", each changing nothing else |
| GameProperties.TakeOutcome | src/app/services/game.service.ts:249-274 | taking an item absent from the room prints the refusal only; otherwise the item joins the end of the inventory and leaves the room, every exit stays, and the log gains exactly the closure's pick-up line, for the manual or the keycard |
| GameProperties.TakeLeavesOtherRooms | src/app/services/game.service.ts:258-270 | taking changes no room but the current one |
| GameProperties.UseDoor | src/app/services/game.service.ts:69-75 | with the keycard, `use door` makes north lead to the mainframe, keeps every other exit, and a second use changes nothing more; without it, nothing changes but the line |
| GameProperties.UseManual | src/app/services/game.service.ts:31-37 | in the start room, `use manual` without the manual puts it in the inventory, removes it from the start room, keeps every other room and the exits, and prints the pick-up line; with it, only "You already have the manual." is printed |
| GameProperties.UseKeycard | src/app/services/game.service.ts:47-53 | in the server room, `use keycard` picks the keycard up in the same way, or prints only "You already have the keycard." |
| GameProperties.UseTerminal | src/app/services/game.service.ts:55-60 | in the server room, `use terminal` prints the reboot line when the manual is held and the hint otherwise, and changes nothing else |
| GameProperties.UseRecoversManual | src/app/services/game.service.ts:31-37 | after `take manual` and a restart the start room no longer lists the manual, yet `use manual` puts it back in the emptied inventory |
| GameProperties.PressTheButton | src/app/services/game.service.ts:84-91 | `use button` ends the game, won, exactly when the manual is held, and then prints the success line and the congratulation |
| GameProperties.RestartOutcome | src/app/services/game.service.ts:348-362 | `restart` sets a new state and a log of exactly four lines built from the current start room, and keeps the room table |
| GameProperties.ClearOutcome | src/app/services/game.service.ts:364-366 | `clear` empties the log, its own echo included, and changes nothing else |
| GameProperties.TakenManualStaysTaken | src/app/services/game.service.ts:348-362 | a manual taken before a restart cannot be taken with `take` after it |
| GameProperties.StepVerbTarget | src/app/services/game.service.ts:160-167 | typing a lower-case verb and word is the echo, then dispatching that command |
| GameProperties.StepWord | src/app/services/game.service.ts:160-167 | typing one lower-case word is the echo, then dispatching it with no target |
| GameProperties.InitialWorldOpens | src/app/services/game.service.ts:24-109 | a new game starts in the start room, with an empty inventory, both items at home and the exits as authored |
| GameProperties.DispatchTake | src/app/services/game.service.ts:185-188 | `take x` is `takeItem(x)` |
| GameProperties.DispatchUse | src/app/services/game.service.ts:195-197 | `use x` is `interact(x)` |
| GameProperties.TypeTake | src/app/services/game.service.ts:258-270 | typing `take x` for an item in the room adds it to the inventory and keeps the player, the other rooms and every exit |
| GameProperties.TypeDirection | src/app/services/game.service.ts:179-184 | typing a direction with an exit goes to its destination and keeps the rooms and the inventory |
| GameProperties.TypeUseDoor | src/app/services/game.service.ts:69-75 | typing `use door` in the corridor with the keycard opens north to the mainframe |
| GameProperties.TypeUseButton | src/app/services/game.service.ts:84-91 | typing `use button` in the mainframe with the manual wins the game, and the log ends with the congratulation |
| GameProperties.RunFrom | src/app/services/game.service.ts:152-212 | running the walkthrough from its `k`-th command is that step and then the rest |
| GameProperties.CollectItems | src/app/services/game.service.ts:24-60 | `take manual`, `east`, `take keycard` from a new game: both items are held, in the server room |
| GameProperties.BackToCorridor | src/app/services/game.service.ts:24-75 | `west`, `north` then reach the corridor with both items |
| GameProperties.OpenDoorPressButton | src/app/services/game.service.ts:69-91 | `use door`, `north`, `use button` from there win the game |
| GameProperties.ReachMainframe | src/app/services/game.service.ts:69-91 | the last five commands of the walkthrough win the game and end with the congratulation |
| GameProperties.WinningRun | src/app/services/game.service.ts:152-310 | typing the eight-command walkthrough into a new game wins it, and the last line is the congratulation |
| GameProperties.NewGameIsWinnable | src/app/services/game.service.ts:24-109 | the game the service creates is won by the walkthrough |
| CommandHistory.Recorded | src/app/components/terminal/terminal.component.ts:95-98 | reference definition, no contract: push the command, then one shift when the history passed 20 entries |
| CommandHistory.Browse | src/app/components/terminal/terminal.component.ts:51-69 | reference definition, no contract: ArrowUp steps one entry back, ArrowDown one forward and past the newest empties the box |
| CommandHistory.Complete | src/app/components/terminal/terminal.component.ts:72-88 | reference definition, no contract: the single listed word that starts with the lower-cased input, or the input |
| CommandHistory.KeyDown | src/app/components/terminal/terminal.component.ts:49-89 | reference definition, no contract: Tab completes, the arrows browse, other keys change nothing |
| CommandHistory.RecordedShape | src/app/components/terminal/terminal.component.ts:95-98 | the history never exceeds 20 entries; the entered command is the newest, and the oldest entry goes only when the history was full |
| CommandHistory.RecordedNonBlank | src/app/components/terminal/terminal.component.ts:93-98 | a history built from non-blank commands holds only entries with text |
| CommandHistory.BrowseKeepsRange | src/app/components/terminal/terminal.component.ts:51-69 | the arrow keys keep `historyIndex` in -1 .. length-1, and a key that changes the prompt leaves the box showing the entry the index points at, or empty at -1 |
| CommandHistory.ArrowSteps | src/app/components/terminal/terminal.component.ts:51-69 | ArrowUp steps back exactly when an older entry exists, ArrowDown steps forward exactly while browsing, and otherwise both change nothing |
| CommandHistory.DownUndoesUp | src/app/components/terminal/terminal.component.ts:51-69 | ArrowDown after ArrowUp restores the index and shows again what was shown, or empties the box |
| CommandHistory.UpTimes | src/app/components/terminal/terminal.component.ts:51-57 | `n` presses of ArrowUp move the index `n` entries back but never past the oldest, keep the prompt when the index does not move, and otherwise leave the box showing the entry the index points at |
| CommandHistory.Matches | src/app/components/terminal/terminal.component.ts:81-83 | a word is among the matches exactly when it is listed and starts with the prefix, and there are never more matches than listed words |
| CommandHistory.CompleteOutcome | src/app/components/terminal/terminal.component.ts:85-87 | Tab leaves the input or puts a listed word that starts with the lower-cased input in the box, and a second Tab changes nothing |
| CommandHistory.CompleteAmbiguous | src/app/components/terminal/terminal.component.ts:85-87 | when two different words match, Tab leaves the input as typed |
| CommandHistory.MatchesAppend | src/app/components/terminal/terminal.component.ts:81-83 | filtering a joined list is joining the filtered lists |
| CommandHistory.MatchesNone | src/app/components/terminal/terminal.component.ts:81-83 | a list without a matching word filters to nothing |
| CommandHistory.CompleteExtended | src/app/components/terminal/terminal.component.ts:75-87 | words added to the list that do not match change no completion |
| CommandHistory.MatchesOnly | src/app/components/terminal/terminal.component.ts:81-83 | in a list without repeats, a single matching word is the whole filter |
| CommandHistory.CompleteUnique | src/app/components/terminal/terminal.component.ts:85-87 | when exactly one listed word matches, Tab puts it in the box |
| CommandHistory.KeyDownKeepsRange | src/app/components/terminal/terminal.component.ts:49-89 | any key keeps the index in range; Tab keeps the index, and other keys change nothing |
| Components.WordsAreLowerCase | src/app/components/terminal/terminal.component.ts:75-79 | the 15 completion words are lower case |
| Components.TabOutcome | src/app/components/terminal/terminal.component.ts:72-88 | Tab gives the input or a listed word with the lower-cased input as prefix, and a second Tab changes nothing |
| Components.ExtendsLegacyWords | src/app/components/terminal/terminal.component.ts:75-79 | the list is the older terminal's 13 words plus `color` and `theme` |
| Components.SameCompletionAsLegacy | src/app/components/terminal/terminal.component.ts:72-88 | both terminals complete alike unless the input starts `color` or `theme` |
| Components.SingleLetterCompletions | src/app/components/terminal/terminal.component.ts:75-87 | `c` and `T` stay as typed here, where the older terminal completes them to `clear` and `take` |
| Components.TerminalComponent.constructor | src/app/components/terminal/terminal.component.ts:20-24 | an empty box, an empty history, index -1 and no emitted entry |
| Components.TerminalComponent.OnKeyDown | src/app/components/terminal/terminal.component.ts:49-89 | Tab sets the box to the completion and the arrows move as `Browse` says; the history, the emitted entries and the game are unchanged |
| Components.TerminalComponent.ExecuteCommand | src/app/components/terminal/terminal.component.ts:91-107 | every entry is emitted, blank ones too; a non-blank entry is recorded, resets the index, clears the box and is processed by the game; a blank one changes nothing else |
| LegacyTerminal.WordsAreLowerCase | src/app/terminal/terminal.component.ts:62-65 | the 13 completion words are lower case |
| LegacyTerminal.WordsAreDistinct | src/app/terminal/terminal.component.ts:62-65 | the list has no repeats |
| LegacyTerminal.TabOutcome | src/app/terminal/terminal.component.ts:59-74 | Tab gives the input or a listed word with the lower-cased input as prefix, and a second Tab changes nothing |
| LegacyTerminal.OnlyClearStartsWithC | src/app/terminal/terminal.component.ts:62-65 | `clear` is the only listed word that starts with `c` |
| LegacyTerminal.OnlyTakeStartsWithT | src/app/terminal/terminal.component.ts:62-65 | `take` is the only listed word that starts with `t` |
| LegacyTerminal.SingleLetterCompletions | src/app/terminal/terminal.component.ts:59-74 | `c` completes to `clear` and `T` to `take`, while `e` (east or examine) stays |
| LegacyTerminal.TerminalComponent.constructor | src/app/terminal/terminal.component.ts:13-18 | an empty box, an empty history, index -1 and nothing processed |
| LegacyTerminal.TerminalComponent.OnKeyDown | src/app/terminal/terminal.component.ts:36-75 | Tab sets the box to the completion and the arrows move as `Browse` says; the history is unchanged |
| LegacyTerminal.TerminalComponent.ExecuteCommand | src/app/terminal/terminal.component.ts:77-92 | a non-blank entry is recorded, resets the index, clears the box and is handed to the service; a blank one changes nothing |
| NestedLineFormat.TitleStep | src/app/line-format.pipe.ts:18-24 | reference definition, no contract: a line starting `== ` and holding ` ==` gets its first line in the room-title span, the other lines after a newline |
| NestedLineFormat.CommandStep | src/app/line-format.pipe.ts:27-29 | reference definition, no contract: text starting `> ` goes into the command-input span |
| NestedLineFormat.InventoryStep | src/app/line-format.pipe.ts:32-34 | reference definition, no contract: text starting `Inventory: ` goes into the inventory span |
| NestedLineFormat.HelpStep | src/app/line-format.pipe.ts:37-39 | reference definition, no contract: text holding `Available commands:` goes into the help-text span |
| NestedLineFormat.SuccessStep | src/app/line-format.pipe.ts:42-44 | reference definition, no contract: text holding `Congratulations` or `successfully` goes into the success span |
| NestedLineFormat.ErrorStep | src/app/line-format.pipe.ts:47-49 | reference definition, no contract: text holding `can't`, `don't` or `no ` goes into the error span |
| NestedLineFormat.Inner | src/app/line-format.pipe.ts:27-44 | reference definition, no contract: the command, inventory, help and success tests in order, each on the text before it |
| NestedLineFormat.Formatted | src/app/line-format.pipe.ts:15-49 | reference definition, no contract: the title rewrite, then every other test, before the newline replacement |
| NestedLineFormat.Transform | src/app/line-format.pipe.ts:11-55 | an empty line gives the empty string, and no result holds a newline |
| NestedLineFormat.TitleFirstLine | src/app/line-format.pipe.ts:18-24 | a title's first line goes into the room-title span, followed by a newline and the rest of the text unchanged |
| NestedLineFormat.TitleBlocksCommandAndInventory | src/app/line-format.pipe.ts:18-34 | after the title rewrite, the command and inventory tests never match |
| NestedLineFormat.WrapsKeepContents | src/app/line-format.pipe.ts:27-49 | the later wraps keep every substring |
| NestedLineFormat.TitleStepStartsWithLine | src/app/line-format.pipe.ts:18-24 | the rewritten title holds its first line's span and a newline |
| NestedLineFormat.TitleLineBreaks | src/app/line-format.pipe.ts:18-52 | a title's first line shows as its span followed by `<br>`, whatever spans surround it |
| NestedLineFormat.TitleBlockBreaks | src/app/line-format.pipe.ts:18-52 | a block starting `== name ==` and a newline shows that line's span and `<br>` |
| NestedLineFormat.OneLineTitleBreaks | src/app/line-format.pipe.ts:18-52 | a one-line title gains `<br>` after its span |
| NestedLineFormat.TitleKeepsContents | src/app/line-format.pipe.ts:18-24 | the title rewrite keeps every substring without a newline |
| NestedLineFormat.ErrorOutermost | src/app/line-format.pipe.ts:47-52 | a line with `can't`, `don't` or `no ` ends in the error span, outside every other span |
| NestedLineFormat.StepsLengthen | src/app/line-format.pipe.ts:18-49 | each step keeps the text or lengthens it, and the wraps keep it only when no test matches |
| NestedLineFormat.UnchangedIff | src/app/line-format.pipe.ts:12-52 | a non-empty line comes back unchanged exactly when it has no newline and no test matches |
| ExclusiveLineFormat.TitlePatternOf | src/app/pipes/line-format.pipe.ts:14 | `==`, white space, any text without line terminators, white space, `==` matches the pattern |
| ExclusiveLineFormat.TitlePatternParts | src/app/pipes/line-format.pipe.ts:14 | every match is built from exactly those parts |
| ExclusiveLineFormat.Classify | src/app/pipes/line-format.pipe.ts:14-45 | reference definition, no contract: the first of the title, command, inventory, help, success and error tests that matches picks the span |
| ExclusiveLineFormat.Transform | src/app/pipes/line-format.pipe.ts:10-49 | an empty line gives the empty string; otherwise the line comes back as it is or in exactly one span, the one the first matching test picks |
| ExclusiveLineFormat.UnchangedIff | src/app/pipes/line-format.pipe.ts:10-49 | a line comes back unchanged exactly when it is empty or no test matches; otherwise all of it is in one span |
| ExclusiveLineFormat.EchoIsCommandInput | src/app/pipes/line-format.pipe.ts:14-20 | an echoed command is always a command-input line, whatever words it holds |
| ExclusiveLineFormat.InventoryListing | src/app/pipes/line-format.pipe.ts:14-24 | an `Inventory:` listing is always an inventory line |
| ExclusiveLineFormat.TitleLineIsTitle | src/app/pipes/line-format.pipe.ts:14-16 | `== name ==` with a one-line name is a room title |
| ExclusiveLineFormat.DescriptionIsNotTitle | src/app/pipes/line-format.pipe.ts:14-16 | a title followed by a newline and at least three more characters does not match the pattern |
| LineFormatComparison.RoomDescriptionTitle | src/app/line-format.pipe.ts:18-52 | for a room's description block, the nested pipe shows the title span and `<br>`, while the exclusive pipe's title pattern fails |
| LineFormatComparison.AuthoredRoomsQualify | src/app/services/game.service.ts:24-94 | all four authored rooms have one-line names and descriptions of at least three characters |
| LineFormatComparison.EchoWithErrorWord | src/app/line-format.pipe.ts:27-49 | an echo holding `can't`, `don't` or `no ` starts with the error span in the nested pipe but is only a command-input line in the exclusive one |

## Findings

| source | as written | input that shows it | evidently intended | confidence | as-written member | corrected member |
|---|---|---|---|---|---|---|
| src/app/services/game.service.ts:233-243 | `room.exits[direction]` is read on a plain object, so a direction named like an inherited member finds it. The typed line is lower-cased first, so only `constructor` (the `Object` function) and `__proto__` (the `Object.prototype` object) can arrive. Either value is truthy and becomes `currentRoom`. "You move constructor." is logged, and `getLocationDescription` then reads `name` of an undefined room and throws, after the state was updated. | `go constructor` in any room | only the room's own exits count, so the move is refused with "You can't go constructor from here." | not executed | GameModel.MoveAsWritten, GameProperties.PrototypeDirectionThrows, GameProperties.GoPrototypeDirection | GameModel.Move, GameProperties.MoveOutcome, GameProperties.MoveAsWrittenAgrees |

## Left out

- The typing animation and its scheduler, `settings.component.ts`, `app.module.ts` and the pipe's spec test are not part of this model.
- RxJS: the `BehaviorSubject`s become plain fields, and `getState`, `getOutput` and their subscribers are left out. `updateState` is a record update.
- The DOM: `scrollToBottom`, `ngAfterViewChecked`, `@ViewChild`, `event.preventDefault()`, the `@Input` `output` and `colorScheme` fields, and `ngOnInit`. The newer terminal's `ngOnInit` also calls `getColorScheme()`, which `src/app/services/game.service.ts` does not define.
- The sanitizer: both `transform` models end with the string handed to `bypassSecurityTrustHtml`.
- `src/app/game.service.ts`, the service the older terminal imports, is not part of this model. That terminal's calls to it are recorded in its `processed` field.
- The `commandEntered` emitter becomes the `emitted` field. Listeners are not modelled.
- JsText.ToLower: maps only the ASCII capitals `A`-`Z`; the rest of Unicode case mapping is not modelled. Some other characters lower-case to ASCII letters: U+212A KELVIN SIGN becomes `k`. So `ta\u212Ae manual` is `take manual` in the source but an unknown command in this model, and Tab completion differs on such input in the same way.
- GameModel.Interact: reads only the room's own interaction keys. As written, the two inherited names that survive lower-casing are found too. `use constructor` calls `Object` on the state, which returns the state object itself; that object is logged, and each line-format pipe then throws on it, since an object has neither the `startsWith` nor the `match` the pipes call first. `use __proto__` finds `Object.prototype`, which is not a function, so the call at src/app/services/game.service.ts:296 throws a TypeError.
- NestedLineFormat.Transform and ExclusiveLineFormat.Transform: take strings only. The `!value` test for `null` or `undefined` is not modelled.
- Keyboard events other than ArrowUp, ArrowDown and Tab are one `OtherKey`, which changes nothing, as in the source.
