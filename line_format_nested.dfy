/** `LineFormatPipe.transform` of src/app/line-format.pipe.ts: a line of the
    game's output becomes HTML by a series of independent tests, each of which
    may wrap the text built so far in one more span, and then every newline
    becomes `<br>`. The model ends with the string handed to the sanitizer. */
module NestedLineFormat {
  import opened JsText

  /** The room-title test: the line starts with `== ` and contains ` ==`. */
  predicate LooksLikeTitle(v: string) {
    StartsWith(v, "== ") && Contains(v, " ==")
  }

  /** A room title has its first line wrapped; the other lines follow after a
      newline. */
  function TitleStep(v: string): string {
    if LooksLikeTitle(v) then
      var titleParts := Split(v, '\n');
      Span("room-title", titleParts[0]) + "\n" + Join(titleParts[1..], "\n")
    else v
  }

  function CommandStep(v: string): string {
    if StartsWith(v, "> ") then Span("command-input", v) else v
  }

  function InventoryStep(v: string): string {
    if StartsWith(v, "Inventory: ") then Span("inventory", v) else v
  }

  predicate HelpMarked(v: string) {
    Contains(v, "Available commands:")
  }

  function HelpStep(v: string): string {
    if HelpMarked(v) then Span("help-text", v) else v
  }

  predicate SuccessMarked(v: string) {
    Contains(v, "Congratulations") || Contains(v, "successfully")
  }

  function SuccessStep(v: string): string {
    if SuccessMarked(v) then Span("success", v) else v
  }

  predicate ErrorMarked(v: string) {
    Contains(v, "can't") || Contains(v, "don't") || Contains(v, "no ")
  }

  function ErrorStep(v: string): string {
    if ErrorMarked(v) then Span("error", v) else v
  }

  /** The tests after the room title and before the error test, each on what
      the one before produced. */
  function Inner(v: string): string {
    SuccessStep(HelpStep(InventoryStep(CommandStep(v))))
  }

  /** The tests after the room title. */
  function Wraps(v: string): string {
    ErrorStep(Inner(v))
  }

  /** The string just before the newline replacement. */
  function Formatted(value: string): string {
    Wraps(TitleStep(value))
  }

  /** `transform(value)` up to the sanitizer: the empty string for an empty
      line, and never a newline in what it returns. */
  function Transform(value: string): (r: string)
    ensures value == "" ==> r == ""
    ensures '\n' !in r
  {
    if value == "" then "" else ReplaceAll(Formatted(value), '\n', "<br>")
  }

  /** None of the span classes has a newline in its name. */
  lemma ClassNamesHaveNoNewline()
    ensures '\n' !in "room-title" && '\n' !in "error"
  {
  }

  // ---------------------------------------------------------------------------
  // Room titles

  /** A room title's first line, up to the first newline, goes into the span,
      and the remaining text follows a newline unchanged; a one-line title
      gains a newline after its span. */
  lemma TitleFirstLine(v: string)
    requires LooksLikeTitle(v)
    ensures match IndexOf(v, '\n')
      case None => TitleStep(v) == Span("room-title", v) + "\n"
      case Some(i) => TitleStep(v) == Span("room-title", v[..i]) + "\n" + v[i + 1..]
  {
    SplitAtFirst(v, '\n');
  }

  /** The command and inventory tests look at the rewritten title, which starts
      with `<span`, so a room title never gets those spans as well. */
  lemma TitleBlocksCommandAndInventory(v: string)
    requires LooksLikeTitle(v)
    ensures InventoryStep(CommandStep(TitleStep(v))) == TitleStep(v)
  {
    var t := TitleStep(v);
    assert t[0] == '<';
  }

  /** The later tests keep whatever the text already contains. */
  lemma WrapsKeepContents(v: string, p: string)
    requires Contains(v, p)
    ensures Contains(Inner(v), p) && Contains(Wraps(v), p)
  {
    var a := CommandStep(v);
    if StartsWith(v, "> ") { SpanContains("command-input", v, p); }
    var b := InventoryStep(a);
    if StartsWith(a, "Inventory: ") { SpanContains("inventory", a, p); }
    var c := HelpStep(b);
    if HelpMarked(b) { SpanContains("help-text", b, p); }
    var d := SuccessStep(c);
    if SuccessMarked(c) { SpanContains("success", c, p); }
    if ErrorMarked(d) { SpanContains("error", d, p); }
  }

  /** The rewritten title starts with the first line's span and a newline. */
  lemma TitleStepStartsWithLine(v: string)
    requires LooksLikeTitle(v)
    ensures Contains(TitleStep(v), Span("room-title", Split(v, '\n')[0]) + "\n")
  {
    var parts := Split(v, '\n');
    var t := Span("room-title", parts[0]) + "\n";
    assert TitleStep(v) == t + Join(parts[1..], "\n");
    ContainsPrefix(t, Join(parts[1..], "\n"));
  }

  /** A room title's first line shows as its span followed by a line break,
      whatever other spans are wrapped around it. */
  lemma TitleLineBreaks(v: string)
    requires LooksLikeTitle(v)
    ensures Contains(Transform(v), Span("room-title", Split(v, '\n')[0]) + "<br>")
  {
    var first := Split(v, '\n')[0];
    var t := Span("room-title", first) + "\n";
    TitleStepStartsWithLine(v);
    WrapsKeepContents(TitleStep(v), t);
    ReplaceAllContains(Formatted(v), '\n', "<br>", t);
    ClassNamesHaveNoNewline();
    ReplaceAfterSpan("room-title", first, "<br>");
  }

  /** A block that starts with the title line `== name ==` and a newline shows
      that line as its span followed by a line break. */
  lemma TitleBlockBreaks(name: string, rest: string)
    requires '\n' !in name
    ensures Contains(Transform("== " + name + " ==\n" + rest), Span("room-title", "== " + name + " ==") + "<br>")
  {
    var title := "== " + name + " ==";
    var d := title + "\n" + rest;
    assert d == "== " + name + " ==\n" + rest;
    assert d[..3] == "== ";
    assert d[|name| + 3..|name| + 6] == " ==";
    assert OccursAt(d, " ==", |name| + 3);
    assert '\n' !in "== " && '\n' !in " ==";
    assert '\n' !in title;
    assert d == title + ['\n'] + rest;
    SplitCons(title, '\n', rest);
    TitleLineBreaks(d);
  }

  /** So a one-line room title gains a line break after its span. */
  lemma OneLineTitleBreaks(v: string)
    requires LooksLikeTitle(v) && '\n' !in v
    ensures Contains(Transform(v), Span("room-title", v) + "<br>")
  {
    SplitWithout(v, '\n');
    TitleLineBreaks(v);
  }

  // ---------------------------------------------------------------------------
  // The error span

  /** Text inside the first line survives the room-title rewrite. */
  lemma KeepsFirstLine(first: string, rest: string, p: string)
    requires Contains(first, p)
    ensures Contains(Span("room-title", first) + "\n" + rest, p)
  {
    SpanContains("room-title", first, p);
    ContainsInMiddle("", Span("room-title", first), "\n" + rest, p);
    assert "" + Span("room-title", first) + ("\n" + rest) == Span("room-title", first) + "\n" + rest;
  }

  /** And so does text inside the lines after it. */
  lemma KeepsLaterLines(first: string, rest: string, p: string)
    requires Contains(rest, p)
    ensures Contains(Span("room-title", first) + "\n" + rest, p)
  {
    ContainsInMiddle(Span("room-title", first) + "\n", rest, "", p);
    assert Span("room-title", first) + "\n" + rest + "" == Span("room-title", first) + "\n" + rest;
  }

  /** The room-title step keeps any text without a newline. */
  lemma TitleKeepsContents(v: string, p: string)
    requires '\n' !in p && Contains(v, p)
    ensures Contains(TitleStep(v), p)
  {
    if LooksLikeTitle(v) {
      TitleFirstLine(v);
      match IndexOf(v, '\n')
      case None =>
        KeepsFirstLine(v, "", p);
        assert Span("room-title", v) + "\n" + "" == TitleStep(v);
      case Some(i) =>
        assert v == v[..i] + ['\n'] + v[i + 1..];
        ContainsAcross(v[..i], '\n', v[i + 1..], p);
        if Contains(v[..i], p) {
          KeepsFirstLine(v[..i], v[i + 1..], p);
        } else {
          KeepsLaterLines(v[..i], v[i + 1..], p);
        }
    }
  }

  /** A line containing `can't`, `don't` or `no ` ends up in the error span,
      outside every other span. */
  lemma ErrorOutermost(v: string)
    requires v != "" && ErrorMarked(v)
    ensures Transform(v) == Span("error", ReplaceAll(Inner(TitleStep(v)), '\n', "<br>"))
  {
    var t := TitleStep(v);
    var inner := Inner(t);
    var p :| p in ["can't", "don't", "no "] && Contains(v, p);
    TitleKeepsContents(v, p);
    WrapsKeepContents(t, p);
    assert ErrorMarked(inner);
    ClassNamesHaveNoNewline();
    ReplaceInSpan("error", inner, "<br>");
  }

  // ---------------------------------------------------------------------------
  // Lines left alone

  /** Each step either keeps the text or makes it longer. */
  lemma StepsLengthen(v: string)
    ensures |TitleStep(v)| > |v| || TitleStep(v) == v
    ensures |Wraps(v)| > |v| || (Wraps(v) == v
      && !StartsWith(v, "> ") && !StartsWith(v, "Inventory: ")
      && !HelpMarked(v) && !SuccessMarked(v) && !ErrorMarked(v))
  {
    if LooksLikeTitle(v) {
      TitleFirstLine(v);
      assert |TitleStep(v)| > |v|;
    }
  }

  /** A line comes back exactly as it was if and only if it has no newline and
      none of the tests matches it. */
  lemma UnchangedIff(v: string)
    requires v != ""
    ensures Transform(v) == v <==>
      && '\n' !in v && !LooksLikeTitle(v)
      && !StartsWith(v, "> ") && !StartsWith(v, "Inventory: ")
      && !HelpMarked(v) && !SuccessMarked(v) && !ErrorMarked(v)
  {
    var t := TitleStep(v);
    StepsLengthen(v);
    StepsLengthen(t);
    ReplaceAllLength(Formatted(v), '\n', "<br>");
    if '\n' !in v && !LooksLikeTitle(v) && Wraps(v) == v {
      ReplaceAllWithout(v, '\n', "<br>");
    }
    if LooksLikeTitle(v) {
      TitleFirstLine(v);
    }
  }
}
