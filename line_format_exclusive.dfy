/** `LineFormatPipe.transform` of src/app/pipes/line-format.pipe.ts: a line of
    the game's output goes into at most one span, chosen by the first test of
    an else-if chain that matches it. The model ends with the string handed to
    the sanitizer. */
module ExclusiveLineFormat {
  import opened JsText

  /** `/^==\s.*\s==$/` without flags: `==`, one white-space character, any run
      of characters other than line terminators, one white-space character and
      `==` at the very end. */
  predicate TitlePattern(v: string) {
    && |v| >= 6
    && v[0] == '=' && v[1] == '='
    && IsWhiteSpace(v[2])
    && (forall i | 3 <= i < |v| - 3 :: !IsLineTerminator(v[i]))
    && IsWhiteSpace(v[|v| - 3])
    && v[|v| - 2] == '=' && v[|v| - 1] == '='
  }

  /** Every string the pattern's parts can build matches it. */
  lemma TitlePatternOf(a: char, m: string, b: char)
    requires IsWhiteSpace(a) && IsWhiteSpace(b)
    requires forall i | 0 <= i < |m| :: !IsLineTerminator(m[i])
    ensures TitlePattern("==" + [a] + m + [b] + "==")
  {
    var v := "==" + [a] + m + [b] + "==";
    forall i | 3 <= i < |v| - 3
      ensures !IsLineTerminator(v[i])
    {
      assert v[i] == m[i - 3];
    }
  }

  /** And every match is built from those parts. */
  lemma TitlePatternParts(v: string)
    requires TitlePattern(v)
    ensures var m := v[3..|v| - 3];
      && v == "==" + [v[2]] + m + [v[|v| - 3]] + "=="
      && IsWhiteSpace(v[2]) && IsWhiteSpace(v[|v| - 3])
      && forall i | 0 <= i < |m| :: !IsLineTerminator(m[i])
  {
    assert v == v[..2] + [v[2]] + v[3..|v| - 3] + [v[|v| - 3]] + v[|v| - 2..];
    assert v[..2] == "==" && v[|v| - 2..] == "==";
  }

  /** The span a line can be put in, or none. */
  datatype LineClass = RoomTitle | CommandInput | Inventory | HelpText | Success | Error | Plain

  function ClassName(c: LineClass): string {
    match c
    case RoomTitle => "room-title"
    case CommandInput => "command-input"
    case Inventory => "inventory"
    case HelpText => "help-text"
    case Success => "success"
    case Error => "error"
    case Plain => ""
  }

  predicate SuccessMarked(v: string) {
    || Contains(v, "successfully") || Contains(v, "Congratulations")
    || Contains(v, "progress") || Contains(v, "You take")
  }

  predicate ErrorMarked(v: string) {
    || Contains(v, "can't") || Contains(v, "don't")
    || Contains(v, "invalid") || Contains(v, "Invalid")
  }

  /** The else-if chain: the first test that matches picks the span. */
  function Classify(v: string): LineClass {
    if TitlePattern(v) then RoomTitle
    else if StartsWith(v, "> ") then CommandInput
    else if StartsWith(v, "Inventory:") then Inventory
    else if Contains(v, "Available commands:") then HelpText
    else if SuccessMarked(v) then Success
    else if ErrorMarked(v) then Error
    else Plain
  }

  /** `transform(value)` up to the sanitizer: the empty string for an empty
      line; otherwise the line itself, or the whole line in exactly one span. */
  function Transform(value: string): (r: string)
    ensures value == "" ==> r == ""
    ensures value != "" ==> r == value || r == Span(ClassName(Classify(value)), value)
  {
    if value == "" then ""
    else match Classify(value)
      case Plain => value
      case c => Span(ClassName(c), value)
  }

  /** A line comes back unchanged, newlines included, exactly when no test
      matches it; otherwise it gains one span around all of it. */
  lemma UnchangedIff(v: string)
    ensures Transform(v) == v <==> v == "" || Classify(v) == Plain
    ensures v != "" && Classify(v) != Plain ==> Transform(v) == Span(ClassName(Classify(v)), v)
  {
    if v != "" && Classify(v) != Plain {
      assert |Transform(v)| > |v|;
    }
  }

  /** An echoed command is always a command-input line: no status word in the
      typed text can move it to another span. */
  lemma EchoIsCommandInput(input: string)
    ensures Transform("> " + input) == Span("command-input", "> " + input)
  {
    var v := "> " + input;
    assert v[0] == '>';
    assert StartsWith(v, "> ");
  }

  /** An inventory listing is always an inventory line. */
  lemma InventoryListing(items: string)
    ensures Transform("Inventory: " + items) == Span("inventory", "Inventory: " + items)
  {
    var v := "Inventory: " + items;
    assert v[0] == 'I';
    assert v[..10] == "Inventory:";
  }

  /** The title line alone, `== name ==` with a name on one line, is a room
      title. */
  lemma TitleLineIsTitle(name: string)
    requires forall i | 0 <= i < |name| :: !IsLineTerminator(name[i])
    ensures Classify("== " + name + " ==") == RoomTitle
  {
    TitlePatternOf(' ', name, ' ');
    assert "==" + [' '] + name + [' '] + "==" == "== " + name + " ==";
  }

  /** A room title followed by a newline and at least three more characters is
      not a title: the newline falls between the two white-space characters,
      where the pattern allows no line terminator. */
  lemma DescriptionIsNotTitle(name: string, rest: string)
    requires |rest| >= 3
    ensures !TitlePattern("== " + name + " ==\n" + rest)
  {
    var v := "== " + name + " ==\n" + rest;
    var k := |name| + 6;
    assert v[k] == '\n';
    assert 3 <= k < |v| - 3;
  }
}
