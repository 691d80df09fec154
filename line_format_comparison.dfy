/** The two line formatters side by side on the lines the game writes: the
    nested formatter of src/app/line-format.pipe.ts and the exclusive one of
    src/app/pipes/line-format.pipe.ts treat a room description and an echoed
    command differently. */
module LineFormatComparison {
  import opened JsText
  import opened GameModel
  import N = NestedLineFormat
  import X = ExclusiveLineFormat

  /** A room's description block, as `getLocationDescription` builds it, has
      its title line put in the room-title span followed by a line break by
      the nested formatter, while the exclusive formatter's title pattern does
      not match the block at all. */
  lemma RoomDescriptionTitle(room: Room)
    requires '\n' !in room.name && |room.description| >= 3
    ensures Contains(N.Transform(LocationDescription(room)), Span("room-title", "== " + room.name + " ==") + "<br>")
    ensures !X.TitlePattern(LocationDescription(room))
  {
    var d := LocationDescription(room);
    var rest := room.description
      + (if |room.items| > 0 then "\nYou see: " + Join(room.items, ", ") else "")
      + (if |room.exits| > 0 then "\nExits: " + Join(Keys(room.exits), ", ") else "");
    assert d == "== " + room.name + " ==\n" + rest;
    X.DescriptionIsNotTitle(room.name, rest);
    N.TitleBlockBreaks(room.name, rest);
  }

  /** The four authored rooms have one-line names and descriptions of more than
      two characters, so each of their description blocks is formatted as
      `RoomDescriptionTitle` says. */
  lemma AuthoredRoomsQualify()
    ensures '\n' !in StartRoom.name && |StartRoom.description| >= 3
    ensures '\n' !in ServerRoom.name && |ServerRoom.description| >= 3
    ensures '\n' !in CorridorRoom.name && |CorridorRoom.description| >= 3
    ensures '\n' !in MainframeRoom.name && |MainframeRoom.description| >= 3
  {
  }

  /** An echoed command containing `can't`, `don't` or `no ` ends up in the
      error span of the nested formatter, around its command-input span, while
      the exclusive formatter gives it only the command-input span. */
  lemma EchoWithErrorWord(input: string)
    requires N.ErrorMarked("> " + input)
    ensures StartsWith(N.Transform("> " + input), "<span class=\"error\">")
    ensures X.Transform("> " + input) == Span("command-input", "> " + input)
  {
    var v := "> " + input;
    var body := ReplaceAll(N.Inner(N.TitleStep(v)), '\n', "<br>");
    N.ErrorOutermost(v);
    SpanStartsWithTag("error", body);
    ErrorTag();
    X.EchoIsCommandInput(input);
  }

  /** The opening tag of the error span, written out. */
  lemma ErrorTag()
    ensures "<span class=\"" + "error" + "\">" == "<span class=\"error\">"
  {
  }
}
