/** The JavaScript string built-ins that the game, the terminals and the line
    formatters rely on (`trim`, `toLowerCase`, `startsWith`, `includes`,
    `split` and `join` with a one-character separator, and a global
    one-character `replace`), written over Dafny strings. */
module JsText {

  datatype Option<T> = None | Some(value: T)

  /** An ECMAScript LineTerminator: LF, CR, LINE SEPARATOR, PARAGRAPH SEPARATOR.
      This is the set of characters that the regular-expression `.` does not match. */
  predicate IsLineTerminator(c: char) {
    c == '\n' || c == '\r' || c == '\U{2028}' || c == '\U{2029}'
  }

  /** An ECMAScript WhiteSpace or LineTerminator character: what `String.prototype.trim`
      strips and what `\s` matches (TAB, VT, FF, the space separators of category Zs,
      ZERO WIDTH NO-BREAK SPACE and the line terminators). */
  predicate IsWhiteSpace(c: char) {
    || c == '\t' || c == '\U{000B}' || c == '\U{000C}' || c == ' ' || c == '\U{00A0}'
    || c == '\U{1680}' || ('\U{2000}' <= c <= '\U{200A}') || c == '\U{202F}'
    || c == '\U{205F}' || c == '\U{3000}' || c == '\U{FEFF}'
    || IsLineTerminator(c)
  }

  /** Leading white space removed. */
  function TrimStart(s: string): (r: string)
    ensures |r| <= |s| && r == s[|s| - |r|..]
    ensures r == [] || !IsWhiteSpace(r[0])
    ensures forall i | 0 <= i < |s| - |r| :: IsWhiteSpace(s[i])
  {
    if |s| > 0 && IsWhiteSpace(s[0]) then TrimStart(s[1..]) else s
  }

  /** Trailing white space removed. */
  function TrimEnd(s: string): (r: string)
    ensures |r| <= |s| && r == s[..|r|]
    ensures r == [] || !IsWhiteSpace(r[|r| - 1])
    ensures forall i | |r| <= i < |s| :: IsWhiteSpace(s[i])
  {
    if |s| > 0 && IsWhiteSpace(s[|s| - 1]) then TrimEnd(s[..|s| - 1]) else s
  }

  /** `s.trim()` */
  function Trim(s: string): string {
    TrimEnd(TrimStart(s))
  }

  /** `s.trim()` is falsy, that is, the empty string. */
  predicate IsBlank(s: string) {
    Trim(s) == ""
  }

  /** Some character of the string is not white space. */
  predicate HasText(s: string) {
    exists i | 0 <= i < |s| :: !IsWhiteSpace(s[i])
  }

  /** A string is blank exactly when every one of its characters is white space. */
  lemma BlankIffAllWhiteSpace(s: string)
    ensures IsBlank(s) <==> !HasText(s)
  {
    var t := TrimStart(s);
    if IsBlank(s) {
      assert TrimEnd(t) == "";
      assert t == [];
    } else {
      var r := Trim(s);
      assert r != [] && !IsWhiteSpace(r[0]);
      assert r[0] == t[0] == s[|s| - |t|];
    }
  }

  /** The result of `trim` neither starts nor ends with white space and is a
      contiguous part of its argument. */
  lemma TrimShape(s: string)
    ensures var r := Trim(s);
      && (r == [] || (!IsWhiteSpace(r[0]) && !IsWhiteSpace(r[|r| - 1])))
      && exists i, j | 0 <= i <= j <= |s| :: r == s[i..j]
  {
    var t := TrimStart(s);
    var r := TrimEnd(t);
    if r != [] {
      assert r[0] == t[0];
    }
    var i, j := |s| - |t|, |s| - |t| + |r|;
    assert r == s[i..j] by {
      assert t == s[i..];
      assert r == t[..|r|];
    }
  }

  /** `toLowerCase` on one character: the ASCII capitals map to their small letters. */
  function LowerChar(c: char): char {
    if 'A' <= c <= 'Z' then (c as int + 32) as char else c
  }

  /** `s.toLowerCase()`, character by character. */
  function ToLower(s: string): (r: string)
    ensures |r| == |s|
  {
    seq(|s|, i requires 0 <= i < |s| => LowerChar(s[i]))
  }

  /** Lowering case never turns a character into, or out of, white space, so it
      commutes with `trim`. */
  lemma LowerKeepsWhiteSpace(c: char)
    ensures IsWhiteSpace(LowerChar(c)) <==> IsWhiteSpace(c)
  {
  }

  /** A string with no ASCII capital is its own lower-case form. */
  lemma LowerOfLower(s: string)
    requires forall i | 0 <= i < |s| :: !('A' <= s[i] <= 'Z')
    ensures ToLower(s) == s
  {
  }

  /** A string that neither starts nor ends with white space is its own trim. */
  lemma TrimOfTrimmed(s: string)
    requires s == [] || (!IsWhiteSpace(s[0]) && !IsWhiteSpace(s[|s| - 1]))
    ensures Trim(s) == s
  {
  }

  /** `s.startsWith(p)` */
  predicate StartsWith(s: string, p: string) {
    |p| <= |s| && s[..|p|] == p
  }

  /** `s.endsWith(p)` */
  predicate EndsWith(s: string, p: string) {
    |p| <= |s| && s[|s| - |p|..] == p
  }

  /** `p` occurs in `s` at index `i`. */
  predicate OccursAt(s: string, p: string, i: int) {
    0 <= i && i + |p| <= |s| && s[i..i + |p|] == p
  }

  /** `s.includes(p)` */
  predicate Contains(s: string, p: string) {
    exists i | 0 <= i <= |s| - |p| :: OccursAt(s, p, i)
  }

  /** A string occurring in the middle of a concatenation occurs in the whole. */
  lemma ContainsInMiddle(a: string, b: string, d: string, p: string)
    requires Contains(b, p)
    ensures Contains(a + b + d, p)
  {
    var i :| 0 <= i <= |b| - |p| && OccursAt(b, p, i);
    assert (a + b + d)[|a| + i..|a| + i + |p|] == b[i..i + |p|];
    assert OccursAt(a + b + d, p, |a| + i);
  }

  /** A string occurs at the start of any extension of it. */
  lemma ContainsPrefix(a: string, b: string)
    ensures Contains(a + b, a)
  {
    assert (a + b)[..|a|] == a;
    assert OccursAt(a + b, a, 0);
  }

  /** A string starts with a one-character string exactly when its first
      character is that character. */
  lemma StartsWithLetter(s: string, c: char)
    ensures StartsWith(s, [c]) <==> |s| > 0 && s[0] == c
  {
    if |s| > 0 {
      assert s[..1] == [s[0]];
    }
  }

  /** A prefix of a string is a prefix of any extension of it. */
  lemma StartsWithAppend(a: string, b: string, p: string)
    requires StartsWith(a, p)
    ensures StartsWith(a + b, p)
  {
    assert (a + b)[..|p|] == a[..|p|];
  }

  /** A string without `c` that occurs on either side of a `c` occurs on one side. */
  lemma ContainsAcross(x: string, c: char, y: string, p: string)
    requires c !in p
    requires Contains(x + [c] + y, p)
    ensures Contains(x, p) || Contains(y, p)
  {
    var s := x + [c] + y;
    var i :| 0 <= i <= |s| - |p| && OccursAt(s, p, i);
    assert forall k | i <= k < i + |p| :: p[k - i] == s[k];
    assert s[|x|] == c;
    if i + |p| <= |x| {
      assert x[i..i + |p|] == s[i..i + |p|];
      assert OccursAt(x, p, i);
    } else if i > |x| {
      assert y[i - |x| - 1..i - |x| - 1 + |p|] == s[i..i + |p|];
      assert OccursAt(y, p, i - |x| - 1);
    }
  }

  /** The index of the first `c` in `s`, as `s.indexOf(c)`. */
  function IndexOf(s: string, c: char): (r: Option<nat>)
    ensures r.None? ==> c !in s
    ensures r.Some? ==> r.value < |s| && s[r.value] == c && c !in s[..r.value]
  {
    if s == [] then None
    else if s[0] == c then Some(0)
    else match IndexOf(s[1..], c)
      case None => None
      case Some(i) =>
        assert s[..i + 1] == [s[0]] + s[1..][..i];
        Some(i + 1)
  }

  /** `s.split(c)`: the maximal runs between occurrences of `c`; `"".split(c)` is `[""]`. */
  function Split(s: string, c: char): (parts: seq<string>)
    ensures |parts| >= 1
    ensures forall k | 0 <= k < |parts| :: c !in parts[k]
    decreases |s|
  {
    match IndexOf(s, c)
    case None => [s]
    case Some(i) => [s[..i]] + Split(s[i + 1..], c)
  }

  /** `parts.join(sep)` */
  function Join(parts: seq<string>, sep: string): string
    decreases |parts|
  {
    if |parts| == 0 then ""
    else if |parts| == 1 then parts[0]
    else parts[0] + sep + Join(parts[1..], sep)
  }

  /** Joining the pieces of a split with the separator gives back the string. */
  lemma {:induction false} JoinSplit(s: string, c: char)
    ensures Join(Split(s, c), [c]) == s
    decreases |s|
  {
    match IndexOf(s, c)
    case None =>
    case Some(i) =>
      var rest := Split(s[i + 1..], c);
      JoinSplit(s[i + 1..], c);
      assert Split(s, c) == [s[..i]] + rest;
      assert Join(Split(s, c), [c]) == s[..i] + [c] + Join(rest, [c]);
      assert s == s[..i] + [c] + s[i + 1..];
  }

  /** The first piece of `s.split(c)` is everything before the first `c`, and
      `s.split(c).slice(1).join(c)` is everything after it (empty when `s` has no `c`). */
  lemma SplitAtFirst(s: string, c: char)
    ensures var parts := Split(s, c);
      match IndexOf(s, c)
      case None => parts[0] == s && Join(parts[1..], [c]) == ""
      case Some(i) => parts[0] == s[..i] && Join(parts[1..], [c]) == s[i + 1..]
  {
    match IndexOf(s, c)
    case None =>
    case Some(i) =>
      assert Split(s, c) == [s[..i]] + Split(s[i + 1..], c);
      JoinSplit(s[i + 1..], c);
      assert Split(s, c)[1..] == Split(s[i + 1..], c);
  }

  /** A string without `c` is a single piece. */
  lemma SplitWithout(s: string, c: char)
    requires c !in s
    ensures Split(s, c) == [s]
  {
    assert IndexOf(s, c) == None;
  }

  /** Splitting at a `c` that follows a `c`-free prefix peels that prefix off. */
  lemma SplitCons(a: string, c: char, b: string)
    requires c !in a
    ensures Split(a + [c] + b, c) == [a] + Split(b, c)
  {
    var s := a + [c] + b;
    assert s[|a|] == c && s[..|a|] == a;
    var r := IndexOf(s, c);
    assert r.Some? && r.value == |a|;
    assert s[|a| + 1..] == b;
  }

  /** Joining pieces none of which contains `c`, with a separator without `c`,
      yields a string without `c`. */
  lemma {:induction false} JoinWithout(parts: seq<string>, sep: string, c: char)
    requires c !in sep
    requires forall k | 0 <= k < |parts| :: c !in parts[k]
    ensures c !in Join(parts, sep)
    decreases |parts|
  {
    if |parts| > 1 {
      JoinWithout(parts[1..], sep, c);
    }
  }

  /** A joined non-empty list ends with its last piece. */
  lemma {:induction false} JoinEndsWithLast(parts: seq<string>, sep: string)
    requires |parts| > 0
    ensures EndsWith(Join(parts, sep), parts[|parts| - 1])
    decreases |parts|
  {
    if |parts| > 1 {
      JoinEndsWithLast(parts[1..], sep);
      var j := Join(parts[1..], sep);
      var last := parts[|parts| - 1];
      assert (parts[0] + sep + j)[|parts[0] + sep + j| - |last|..] == j[|j| - |last|..];
    }
  }

  /** `s.replace(/c/g, r)` for a single character `c`. */
  function ReplaceAll(s: string, c: char, r: string): (t: string)
    ensures c !in r ==> c !in t
    decreases |s|
  {
    if s == [] then ""
    else (if s[0] == c then r else [s[0]]) + ReplaceAll(s[1..], c, r)
  }

  /** The replacement works piece by piece. */
  lemma {:induction false} ReplaceAllAppend(a: string, b: string, c: char, r: string)
    ensures ReplaceAll(a + b, c, r) == ReplaceAll(a, c, r) + ReplaceAll(b, c, r)
    decreases |a|
  {
    if a != [] {
      assert (a + b)[1..] == a[1..] + b;
      ReplaceAllAppend(a[1..], b, c, r);
    } else {
      assert a + b == b;
    }
  }

  /** A string without the replaced character is left as it is. */
  lemma {:induction false} ReplaceAllWithout(s: string, c: char, r: string)
    requires c !in s
    ensures ReplaceAll(s, c, r) == s
    decreases |s|
  {
    if s != [] {
      ReplaceAllWithout(s[1..], c, r);
    }
  }

  /** The HTML the line formatters wrap a line in: `<span class="cls">body</span>`. */
  function Span(cls: string, body: string): string {
    "<span class=\"" + cls + "\">" + body + "</span>"
  }

  /** A span starts with its opening tag. */
  lemma SpanStartsWithTag(cls: string, body: string)
    ensures StartsWith(Span(cls, body), "<span class=\"" + cls + "\">")
  {
    var open := "<span class=\"" + cls + "\">";
    assert Span(cls, body) == open + (body + "</span>");
    assert (open + (body + "</span>"))[..|open|] == open;
  }

  /** A span contains its body. */
  lemma SpanContains(cls: string, body: string, p: string)
    requires Contains(body, p)
    ensures Contains(Span(cls, body), p)
  {
    ContainsInMiddle("<span class=\"" + cls + "\">", body, "</span>", p);
  }

  /** What occurs in a string occurs, replaced, in its replacement. */
  lemma ReplaceAllContains(s: string, c: char, r: string, p: string)
    requires Contains(s, p)
    ensures Contains(ReplaceAll(s, c, r), ReplaceAll(p, c, r))
  {
    var i :| 0 <= i <= |s| - |p| && OccursAt(s, p, i);
    assert s == s[..i] + p + s[i + |p|..];
    ReplaceAllAppend(s[..i] + p, s[i + |p|..], c, r);
    ReplaceAllAppend(s[..i], p, c, r);
    var a, m, d := ReplaceAll(s[..i], c, r), ReplaceAll(p, c, r), ReplaceAll(s[i + |p|..], c, r);
    assert ReplaceAll(s, c, r) == a + m + d;
    assert (a + m + d)[|a|..|a| + |m|] == m;
    assert OccursAt(a + m + d, m, |a|);
  }

  /** A replacement of at least one character never shortens the string, and
      lengthens it when the replaced character occurs, unless the replacement
      is that one character again. */
  lemma {:induction false} ReplaceAllLength(s: string, c: char, r: string)
    requires |r| >= 2
    ensures |ReplaceAll(s, c, r)| >= |s|
    ensures c in s ==> |ReplaceAll(s, c, r)| > |s|
    decreases |s|
  {
    if s != [] {
      ReplaceAllLength(s[1..], c, r);
      assert c in s ==> s[0] == c || c in s[1..];
    }
  }

  /** Replacing newlines works inside the span body when the class name has
      none. */
  lemma ReplaceInSpan(cls: string, body: string, r: string)
    requires '\n' !in cls
    ensures ReplaceAll(Span(cls, body), '\n', r) == Span(cls, ReplaceAll(body, '\n', r))
  {
    var open := "<span class=\"" + cls + "\">";
    var close := "</span>";
    assert '\n' !in open;
    assert '\n' !in close;
    assert Span(cls, body) == open + body + close;
    ReplaceAllAppend(open + body, close, '\n', r);
    ReplaceAllAppend(open, body, '\n', r);
    ReplaceAllWithout(open, '\n', r);
    ReplaceAllWithout(close, '\n', r);
  }

  /** A one-line span followed by a newline: the newline becomes the
      replacement and nothing else changes. */
  lemma ReplaceAfterSpan(cls: string, body: string, r: string)
    requires '\n' !in cls && '\n' !in body
    ensures ReplaceAll(Span(cls, body) + "\n", '\n', r) == Span(cls, body) + r
  {
    ReplaceAllAppend(Span(cls, body), "\n", '\n', r);
    ReplaceInSpan(cls, body, r);
    ReplaceAllWithout(body, '\n', r);
    assert ReplaceAll("\n", '\n', r) == r;
  }
}
