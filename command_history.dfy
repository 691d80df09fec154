/** The keyboard handling both terminal components share: a capped history of
    entered commands, browsing it with the arrow keys, and completing a command
    word with Tab. The components keep `command`, `commandHistory` and
    `historyIndex` as fields; the functions here say what one key or one entry
    does to them. */
module CommandHistory {
  import opened JsText

  /** The most commands the history keeps. */
  const MaxHistory := 20

  /** The keys `onKeyDown` reacts to; every other `event.key` is `OtherKey`. */
  datatype Key = ArrowUp | ArrowDown | Tab | OtherKey

  /** The input box and the browse position: `index` is -1 while not browsing,
      otherwise how many entries back from the newest the box shows. */
  datatype Prompt = Prompt(command: string, index: int)

  /** `historyIndex` points into the history or is -1. */
  predicate IndexInRange(history: seq<string>, index: int) {
    -1 <= index < |history|
  }

  /** The entry `index` steps back from the newest. */
  function Shown(history: seq<string>, index: int): string
    requires 0 <= index < |history|
  {
    history[|history| - 1 - index]
  }

  // ---------------------------------------------------------------------------
  // Entering a command

  /** `push(command)`, then one `shift()` when the push took the history past
      the cap. */
  function Recorded(history: seq<string>, command: string): (r: seq<string>)
  {
    var pushed := history + [command];
    if |pushed| > MaxHistory then pushed[1..] else pushed
  }

  /** The history never grows past the cap, the entered command is the newest
      entry, and what is kept is the newest part of the old history. */
  lemma RecordedShape(history: seq<string>, command: string)
    requires |history| <= MaxHistory
    ensures var r := Recorded(history, command);
      && |r| <= MaxHistory
      && r[|r| - 1] == command
      && r[..|r| - 1] == history[|history| + 1 - |r|..]
      && (|history| < MaxHistory ==> r == history + [command])
      && (|history| == MaxHistory ==> r == history[1..] + [command])
  {
    var r := Recorded(history, command);
    if |history| == MaxHistory {
      assert r == history[1..] + [command];
      assert r[..|r| - 1] == history[1..];
    } else {
      assert r[..|r| - 1] == history;
    }
  }

  /** Only commands with something besides white space are recorded, so every
      entry of a history built by entering commands has some text. */
  predicate NonBlankEntries(history: seq<string>) {
    forall i | 0 <= i < |history| :: HasText(history[i])
  }

  lemma RecordedNonBlank(history: seq<string>, command: string)
    requires NonBlankEntries(history) && !IsBlank(command)
    ensures NonBlankEntries(Recorded(history, command))
  {
    BlankIffAllWhiteSpace(command);
    var pushed := history + [command];
    assert NonBlankEntries(pushed) by {
      forall i | 0 <= i < |pushed|
        ensures HasText(pushed[i])
      {
        if i < |history| { assert pushed[i] == history[i]; }
      }
    }
    if |pushed| > MaxHistory {
      forall i | 0 <= i < |pushed| - 1
        ensures HasText(pushed[1..][i])
      {
        assert pushed[1..][i] == pushed[i + 1];
      }
    }
  }

  // ---------------------------------------------------------------------------
  // Browsing

  /** `onKeyDown` for the arrow keys. */
  function Browse(history: seq<string>, p: Prompt, key: Key): (r: Prompt)
    requires IndexInRange(history, p.index)
  {
    match key
    case ArrowUp =>
      if p.index < |history| - 1 then Prompt(Shown(history, p.index + 1), p.index + 1) else p
    case ArrowDown =>
      if p.index > 0 then Prompt(Shown(history, p.index - 1), p.index - 1)
      else if p.index == 0 then Prompt("", -1)
      else p
    case _ => p
  }

  /** The arrow keys keep the browse position inside the history, and whenever
      it points at an entry the box shows exactly that entry. */
  lemma BrowseKeepsRange(history: seq<string>, p: Prompt, key: Key)
    requires IndexInRange(history, p.index)
    ensures var r := Browse(history, p, key);
      && IndexInRange(history, r.index)
      && (r != p ==> (r.index == -1 && r.command == "") || (r.index >= 0 && r.command == Shown(history, r.index)))
  {
  }

  /** ArrowUp steps one entry further back unless it already shows the oldest;
      ArrowDown steps one entry forward, and past the newest one empties the
      box and stops browsing. */
  lemma ArrowSteps(history: seq<string>, p: Prompt)
    requires IndexInRange(history, p.index)
    ensures var up := Browse(history, p, ArrowUp);
      && (p.index < |history| - 1 <==> up.index == p.index + 1)
      && (p.index == |history| - 1 <==> up == p)
    ensures var down := Browse(history, p, ArrowDown);
      && (p.index >= 0 <==> down.index == p.index - 1)
      && (p.index == -1 <==> down == p)
  {
  }

  /** ArrowDown undoes ArrowUp: after both the box is empty again if browsing
      had not started, and otherwise shows the entry it showed. */
  lemma DownUndoesUp(history: seq<string>, p: Prompt)
    requires IndexInRange(history, p.index) && p.index < |history| - 1
    ensures var back := Browse(history, Browse(history, p, ArrowUp), ArrowDown);
      && back.index == p.index
      && back.command == (if p.index == -1 then "" else Shown(history, p.index))
  {
  }

  /** Pressing ArrowUp `n` times: the position moves `n` entries back, but
      never past the oldest, and once it has moved the box shows the entry it
      points at. */
  function UpTimes(history: seq<string>, p: Prompt, n: nat): (r: Prompt)
    requires IndexInRange(history, p.index)
    ensures IndexInRange(history, r.index)
    ensures r.index == if p.index + n < |history| then p.index + n else |history| - 1
    ensures r.index == p.index ==> r == p
    ensures r.index != p.index ==> r.command == Shown(history, r.index)
    decreases n
  {
    if n == 0 then p else UpTimes(history, Browse(history, p, ArrowUp), n - 1)
  }

  // ---------------------------------------------------------------------------
  // Tab completion

  /** `words.filter(cmd => cmd.startsWith(prefix))`: the matches are exactly
      the listed words that start with the prefix, and never more of them
      than the list holds. */
  function Matches(words: seq<string>, prefix: string): (r: seq<string>)
    ensures |r| <= |words|
    ensures forall x :: x in r <==> x in words && StartsWith(x, prefix)
  {
    if words == [] then []
    else if StartsWith(words[0], prefix) then [words[0]] + Matches(words[1..], prefix)
    else Matches(words[1..], prefix)
  }

  /** `onKeyDown` for Tab: the box becomes the one word that starts with its
      lower-cased text, and stays as it is when no word or several do. */
  function Complete(words: seq<string>, command: string): string {
    var m := Matches(words, ToLower(command));
    if |m| == 1 then m[0] else command
  }

  /** A prefix of a prefix. */
  lemma StartsWithTrans(s: string, t: string, p: string)
    requires StartsWith(s, t) && StartsWith(t, p)
    ensures StartsWith(s, p)
  {
    assert s[..|p|] == s[..|t|][..|p|];
  }

  /** Each element occurs once. */
  predicate Distinct(xs: seq<string>) {
    forall i, j | 0 <= i < j < |xs| :: xs[i] != xs[j]
  }

  /** The rest of a list of distinct words is distinct and lacks the first. */
  lemma DistinctTail(words: seq<string>)
    requires Distinct(words) && words != []
    ensures Distinct(words[1..]) && words[0] !in words[1..]
  {
    forall i, j | 0 <= i < j < |words| - 1
      ensures words[1..][i] != words[1..][j]
    {
      assert words[1..][i] == words[i + 1] && words[1..][j] == words[j + 1];
    }
    forall k | 0 <= k < |words| - 1
      ensures words[1..][k] != words[0]
    {
      assert words[1..][k] == words[k + 1];
    }
  }

  /** Every word of the list is its own lower-case form. */
  predicate LowerCaseWords(words: seq<string>) {
    forall i | 0 <= i < |words| :: ToLower(words[i]) == words[i]
  }

  /** With a lower-case list, the completion is a word of the list that starts
      with the lower-cased input, or the input itself; and pressing Tab again
      keeps what the first Tab gave. */
  lemma CompleteOutcome(words: seq<string>, command: string)
    requires LowerCaseWords(words)
    ensures var r := Complete(words, command);
      && (r == command || (r in words && StartsWith(r, ToLower(command))))
      && Complete(words, r) == r
  {
    var m := Matches(words, ToLower(command));
    if |m| == 1 {
      var w := m[0];
      assert w in m;
      var i :| 0 <= i < |words| && words[i] == w;
      assert ToLower(w) == w;
      var m2 := Matches(words, w);
      forall y | y in m2
        ensures y == w
      {
        StartsWithTrans(y, w, ToLower(command));
      }
      assert forall k | 0 <= k < |m2| :: m2[k] in m2;
    }
  }

  /** Two different words that both start with the lower-cased input leave it
      as typed. */
  lemma CompleteAmbiguous(words: seq<string>, command: string, a: string, b: string)
    requires a != b && a in words && b in words
    requires StartsWith(a, ToLower(command)) && StartsWith(b, ToLower(command))
    ensures Complete(words, command) == command
  {
  }

  /** Filtering a concatenation filters each part. */
  lemma {:induction false} MatchesAppend(a: seq<string>, b: seq<string>, prefix: string)
    ensures Matches(a + b, prefix) == Matches(a, prefix) + Matches(b, prefix)
  {
    if a != [] {
      assert (a + b)[0] == a[0] && (a + b)[1..] == a[1..] + b;
      MatchesAppend(a[1..], b, prefix);
    } else {
      assert a + b == b;
    }
  }

  /** No word starts with the prefix: there are no matches. */
  lemma {:induction false} MatchesNone(words: seq<string>, prefix: string)
    requires forall x | x in words :: !StartsWith(x, prefix)
    ensures Matches(words, prefix) == []
  {
    if words != [] {
      assert words[0] in words;
      assert forall x | x in words[1..] :: x in words;
      MatchesNone(words[1..], prefix);
    }
  }

  /** Words added at the end of a list change no completion of an input that
      none of them starts with. */
  lemma CompleteExtended(words: seq<string>, more: seq<string>, command: string)
    requires forall x | x in more :: !StartsWith(x, ToLower(command))
    ensures Complete(words + more, command) == Complete(words, command)
  {
    MatchesAppend(words, more, ToLower(command));
    MatchesNone(more, ToLower(command));
    assert Matches(words, ToLower(command)) + [] == Matches(words, ToLower(command));
  }

  /** When at most one word of a distinct list, `w`, starts with the prefix,
      the matches are `[w]` if it is in the list and start with the prefix,
      and none otherwise. */
  lemma {:induction false} MatchesOnly(words: seq<string>, prefix: string, w: string)
    requires Distinct(words)
    requires forall x | x in words && StartsWith(x, prefix) :: x == w
    ensures Matches(words, prefix) == if w in words && StartsWith(w, prefix) then [w] else []
  {
    if words != [] {
      DistinctTail(words);
      MatchesOnly(words[1..], prefix, w);
      assert w in words <==> w == words[0] || w in words[1..];
    }
  }

  /** Conversely, when exactly one word of the list starts with the lower-cased
      input, Tab completes to that word. */
  lemma CompleteUnique(words: seq<string>, command: string, w: string)
    requires Distinct(words)
    requires w in words && StartsWith(w, ToLower(command))
    requires forall x | x in words && StartsWith(x, ToLower(command)) :: x == w
    ensures Complete(words, command) == w
  {
    MatchesOnly(words, ToLower(command), w);
  }

  // ---------------------------------------------------------------------------
  // One key

  /** `onKeyDown(event)` with the component's word list: the arrows browse the
      history, Tab completes, and any other key changes nothing. */
  function KeyDown(words: seq<string>, history: seq<string>, p: Prompt, key: Key): (r: Prompt)
    requires IndexInRange(history, p.index)
  {
    if key == Tab then Prompt(Complete(words, p.command), p.index) else Browse(history, p, key)
  }

  /** No key moves the browse position out of the history, Tab leaves it where
      it is, and a key other than the arrows and Tab changes nothing. */
  lemma KeyDownKeepsRange(words: seq<string>, history: seq<string>, p: Prompt, key: Key)
    requires IndexInRange(history, p.index)
    ensures IndexInRange(history, KeyDown(words, history, p, key).index)
    ensures key == Tab ==> KeyDown(words, history, p, key).index == p.index
    ensures key == OtherKey ==> KeyDown(words, history, p, key) == p
  {
    if key != Tab {
      BrowseKeepsRange(history, p, key);
    }
  }
}
