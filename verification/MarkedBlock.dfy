/**
 Rewriting a marked block in a script: the lines between a begin and an end
 marker are replaced, and a block that is not there is appended. Lines end with
 newlines only.
 */
module MarkedBlock {
  import opened Text

  const AUTO_BEGIN := "# BEGIN AUTO-GENERATED:"
  const AUTO_END := "# END AUTO-GENERATED:"

  function Begin(name: string): string {
    AUTO_BEGIN + " " + name
  }

  function End(name: string): string {
    AUTO_END + " " + name
  }

  predicate IsNewline(c: char) { c == '\n' }

  /** `splitlines` for text whose only line boundary is the newline. */
  function Lines(text: string): seq<string> {
    var parts := Split(text, '\n');
    if parts[|parts| - 1] == "" then parts[..|parts| - 1] else parts
  }

  /** The first line from `k` on of a given kind. */
  function Find(lines: seq<string>, f: string -> bool, k: nat): (r: Option<nat>)
    ensures r.Some? ==> k <= r.value < |lines|
    decreases |lines| - k
  {
    if k >= |lines| then None
    else if f(lines[k]) then Some(k)
    else Find(lines, f, k + 1)
  }

  /** The line is the marker, blanks around it aside. */
  function Is(marker: string): string -> bool {
    (line: string) => Strip(line) == marker
  }

  function Marked(name: string, added: seq<string>): seq<string> {
    [Begin(name)] + added + [End(name)]
  }

  /** `_replace_marked_block`, given the lines with their indentation. */
  function Rewrite(text: string, name: string, added: seq<string>): string {
    var lines := Lines(text);
    var i0 := Find(lines, Is(Begin(name)), 0);
    var i1 := if i0.Some? then Find(lines, Is(End(name)), i0.value + 1) else None;
    if i1.None? then
      StripRight(text, Blank) + "\n" + Join(Marked(name, added), '\n') + "\n"
    else
      StripRight(Join(lines[..i0.value + 1] + added + lines[i1.value..], '\n'), IsNewline) + "\n"
  }

  // ---- Lines and text ----

  ghost predicate NoNewline(lines: seq<string>) {
    Separable(lines, '\n')
  }

  /** Lines without the empty ones at their end. */
  function Dense(lines: seq<string>): (r: seq<string>)
    ensures |r| <= |lines| && r == lines[..|r|]
    ensures r != [] ==> r[|r| - 1] != ""
  {
    if lines == [] || lines[|lines| - 1] != "" then lines else Dense(lines[..|lines| - 1])
  }

  lemma {:induction false} DenseConcat(a: seq<string>, b: seq<string>)
    requires b != [] && b[0] != ""
    ensures Dense(a + b) == a + Dense(b) && Dense(b) != [] && Dense(b)[0] == b[0]
    decreases |b|
  {
    if b[|b| - 1] == "" {
      var c := b[..|b| - 1];
      assert (a + b)[..|a + b| - 1] == a + c;
      DenseConcat(a, c);
    }
  }

  lemma JoinLast(a: seq<string>, x: string)
    ensures Join(a + [x], '\n') == if a == [] then x else Join(a, '\n') + ['\n'] + x
  {
    if a == [] {
      assert a + [x] == [x];
    } else {
      JoinConcat(a, [x], '\n');
    }
  }

  /** A text that ends in an empty line loses its last newline. */
  lemma StripEmptyLine(a: seq<string>)
    requires a != []
    ensures StripRight(Join(a + [""], '\n'), IsNewline) == StripRight(Join(a, '\n'), IsNewline)
  {
    var s := Join(a + [""], '\n');
    JoinLast(a, "");
    hide Join;
    assert s[..|s| - 1] == Join(a, '\n');
  }

  lemma StripFullLine(a: seq<string>, x: string)
    requires x != "" && '\n' !in x
    ensures StripRight(Join(a + [x], '\n'), IsNewline) == Join(a + [x], '\n')
  {
    var s := Join(a + [x], '\n');
    JoinLast(a, x);
    hide Join;
    assert s[|s| - 1] == x[|x| - 1];
  }

  /** Newlines stripped from the end are empty lines dropped. */
  lemma {:induction false} StripIsDense(lines: seq<string>)
    requires NoNewline(lines) && Dense(lines) != []
    ensures StripRight(Join(lines, '\n'), IsNewline) == Join(Dense(lines), '\n')
  {
    hide Join, StripRight;
    var n := |lines| - 1;
    assert lines == lines[..n] + [lines[n]];
    if lines[n] == "" {
      StripIsDense(lines[..n]);
      StripEmptyLine(lines[..n]);
    } else {
      StripFullLine(lines[..n], lines[n]);
    }
  }

  /** Text made of lines, the last not empty, has those lines. */
  lemma LinesOfText(lines: seq<string>)
    requires NoNewline(lines) && lines != []
    ensures Lines(Join(lines, '\n') + "\n") == lines
  {
    SplitConcat(Join(lines, '\n'), "", '\n');
    assert Join(lines, '\n') + "\n" == Join(lines, '\n') + ['\n'] + "";
    SplitJoin(lines, '\n');
    assert Split("", '\n') == [""];
  }

  lemma LinesHaveNoNewline(text: string)
    ensures NoNewline(Lines(text))
  {
    SplitSeparable(text, '\n');
  }

  // ---- Finding markers ----

  lemma {:induction false} FindLaws(lines: seq<string>, f: string -> bool, k: nat)
    ensures
      var r := Find(lines, f, k);
      && (r.Some? ==> f(lines[r.value]))
      && (forall i | k <= i < |lines| && (r.None? || i < r.value) :: !f(lines[i]))
    decreases |lines| - k
  {
    if k < |lines| && !f(lines[k]) {
      FindLaws(lines, f, k + 1);
    }
  }

  /** Where the first one is. */
  lemma {:induction false} FindAt(lines: seq<string>, f: string -> bool, k: nat, i: nat)
    requires k <= i < |lines| && f(lines[i]) && forall j | k <= j < i :: !f(lines[j])
    ensures Find(lines, f, k) == Some(i)
    decreases i - k
  {
    if k < i {
      FindAt(lines, f, k + 1, i);
    }
  }

  lemma {:induction false} FindNone(lines: seq<string>, f: string -> bool, k: nat)
    requires forall j | k <= j < |lines| :: !f(lines[j])
    ensures Find(lines, f, k).None?
    decreases |lines| - k
  {
    if k < |lines| {
      FindNone(lines, f, k + 1);
    }
  }

  // ---- Blank space at the end of a text ----

  lemma {:induction false} StripLeftBlank(s: string, c: char)
    requires Blank(c)
    ensures StripLeft(s + [c], Blank) == if StripLeft(s, Blank) == "" then "" else StripLeft(s, Blank) + [c]
  {
    if s == "" {
      assert (s + [c])[1..] == "";
    } else if Blank(s[0]) {
      assert (s + [c])[1..] == s[1..] + [c];
      StripLeftBlank(s[1..], c);
    }
  }

  lemma StripBlank(s: string, c: char)
    requires Blank(c)
    ensures Strip(s + [c]) == Strip(s)
  {
    StripLeftBlank(s, c);
    var l := StripLeft(s, Blank);
    if l != "" {
      assert (l + [c])[..|l|] == l;
    }
  }

  lemma StripEmpty()
    ensures Strip("") == ""
  {
  }

  /** The same lines, but for blank space at the end of lines and blank lines at the end. */
  ghost predicate Similar(long: seq<string>, short: seq<string>) {
    && |short| <= |long|
    && (forall k | 0 <= k < |short| :: Strip(long[k]) == Strip(short[k]))
    && (forall k | |short| <= k < |long| :: Strip(long[k]) == "")
  }

  lemma JoinSnoc(a: seq<string>, x: string, c: char)
    ensures Join(a + [x + [c]], '\n') == Join(a + [x], '\n') + [c]
  {
    JoinLast(a, x);
    JoinLast(a, x + [c]);
    if a != [] {
      var j := Join(a, '\n') + ['\n'];
      assert j + (x + [c]) == j + x + [c];
    }
  }

  lemma SplitLonger(a: seq<string>, x: string, c: char)
    requires Separable(a, '\n') && '\n' !in x && c != '\n'
    ensures Split(Join(a + [x], '\n') + [c], '\n') == a + [x + [c]]
  {
    hide Split, Join;
    JoinSnoc(a, x, c);
    assert Separable(a + [x + [c]], '\n');
    SplitJoin(a + [x + [c]], '\n');
  }

  lemma SplitNewline(s: string)
    ensures Split(s + ['\n'], '\n') == Split(s, '\n') + [""]
  {
    SplitConcat(s, "", '\n');
    assert s + ['\n'] == s + ['\n'] + "";
  }

  /** Adding one character to the end of a text. */
  lemma SplitSnoc(s: string, c: char)
    ensures
      var p := Split(s, '\n');
      Split(s + [c], '\n') == if c == '\n' then p + [""] else p[..|p| - 1] + [p[|p| - 1] + [c]]
  {
    hide Split, Join;
    if c == '\n' {
      SplitNewline(s);
    } else {
      var p := Split(s, '\n');
      SplitSeparable(s, '\n');
      JoinSplit(s, '\n');
      assert p == p[..|p| - 1] + [p[|p| - 1]];
      SplitLonger(p[..|p| - 1], p[|p| - 1], c);
    }
  }

  lemma SnocSimilar(t: string, c: char)
    requires Blank(c)
    ensures Similar(Split(t + [c], '\n'), Split(t, '\n'))
  {
    hide Strip, Split;
    SplitSnoc(t, c);
    StripEmpty();
    var p := Split(t, '\n');
    StripBlank(p[|p| - 1], c);
  }

  lemma SimilarTransitive(a: seq<string>, b: seq<string>, c: seq<string>)
    requires Similar(a, b) && Similar(b, c)
    ensures Similar(a, c)
  {
  }

  lemma {:induction false} StripSimilar(s: string)
    ensures Similar(Split(s, '\n'), Split(StripRight(s, Blank), '\n'))
  {
    if s != "" && Blank(s[|s| - 1]) {
      var t, c := s[..|s| - 1], s[|s| - 1];
      assert s == t + [c];
      StripSimilar(t);
      SnocSimilar(t, c);
      SimilarTransitive(Split(s, '\n'), Split(t, '\n'), Split(StripRight(t, Blank), '\n'));
    }
  }

  /** Markers are found in the same places. */
  lemma FindSimilar(long: seq<string>, short: seq<string>, marker: string, k: nat)
    requires Similar(long, short) && marker != ""
    ensures Find(long, Is(marker), k) == Find(short, Is(marker), k)
  {
    FindLaws(short, Is(marker), k);
    var r := Find(short, Is(marker), k);
    if r.Some? {
      FindAt(long, Is(marker), k, r.value);
    } else {
      FindNone(long, Is(marker), k);
    }
  }

  lemma LinesSimilar(text: string)
    ensures Similar(Split(text, '\n'), Lines(text))
  {
    hide Strip, Split;
    StripEmpty();
  }

  /** A text's lines, and the lines of the text without its blank end, hold the same markers. */
  lemma MarkersOfStripped(text: string, marker: string, k: nat)
    requires marker != ""
    ensures Find(Lines(text), Is(marker), k) == Find(Split(StripRight(text, Blank), '\n'), Is(marker), k)
  {
    var all := Split(text, '\n');
    StripSimilar(text);
    FindSimilar(all, Split(StripRight(text, Blank), '\n'), marker, k);
    LinesSimilar(text);
    FindSimilar(all, Lines(text), marker, k);
  }

  // ---- What rewriting does to the lines ----

  /** A name whose markers can be found again: on one line, and not ending in a blank. */
  predicate WellNamed(name: string) {
    '\n' !in name && name != "" && !Blank(name[|name| - 1])
  }

  /** Lines that can be put in a block: on one line each, and not its end marker. */
  ghost predicate Free(added: seq<string>, name: string) {
    NoNewline(added) && forall i | 0 <= i < |added| :: Strip(added[i]) != End(name)
  }

  function FirstBegin(text: string, name: string): Option<nat> {
    Find(Lines(text), Is(Begin(name)), 0)
  }

  function ItsEnd(text: string, name: string): Option<nat> {
    var i := FirstBegin(text, name);
    if i.Some? then Find(Lines(text), Is(End(name)), i.value + 1) else None
  }

  /** The first begin marker, if there is one, has an end marker after it. */
  predicate Closed(text: string, name: string) {
    FirstBegin(text, name).Some? ==> ItsEnd(text, name).Some?
  }

  /** The lines of the rewritten text: all lines outside the block are kept, in order. */
  function Rewritten(text: string, name: string, added: seq<string>): seq<string> {
    var lines := Lines(text);
    if ItsEnd(text, name).Some? then
      lines[..FirstBegin(text, name).value + 1] + added + Dense(lines[ItsEnd(text, name).value..])
    else
      Split(StripRight(text, Blank), '\n') + Marked(name, added)
  }

  lemma MarkerText(name: string)
    requires '\n' !in name
    ensures '\n' !in Begin(name) && '\n' !in End(name)
  {
    assert '\n' !in AUTO_BEGIN && '\n' !in AUTO_END;
  }

  lemma ReplacedLines(lines: seq<string>, i0: nat, i1: nat, added: seq<string>)
    requires NoNewline(lines) && NoNewline(added) && i0 < i1 < |lines| && lines[i1] != ""
    ensures
      var now := lines[..i0 + 1] + added + Dense(lines[i1..]);
      && StripRight(Join(lines[..i0 + 1] + added + lines[i1..], '\n'), IsNewline) == Join(now, '\n')
      && NoNewline(now) && now != []
  {
    DenseConcat(lines[..i0 + 1] + added, lines[i1..]);
    StripIsDense(lines[..i0 + 1] + added + lines[i1..]);
  }

  lemma ReplacedText(text: string, name: string, added: seq<string>)
    requires NoNewline(added) && ItsEnd(text, name).Some?
    ensures Rewrite(text, name, added) == Join(Rewritten(text, name, added), '\n') + "\n"
    ensures NoNewline(Rewritten(text, name, added)) && Rewritten(text, name, added) != []
  {
    var lines := Lines(text);
    var i0, i1 := FirstBegin(text, name).value, ItsEnd(text, name).value;
    LinesHaveNoNewline(text);
    FindLaws(lines, Is(End(name)), i0 + 1);
    assert lines[i1] != "" by {
      assert Strip("") == "";
    }
    ReplacedLines(lines, i0, i1, added);
  }

  lemma AppendedLines(s: string, block: seq<string>)
    requires block != []
    ensures s + "\n" + Join(block, '\n') == Join(Split(s, '\n') + block, '\n')
  {
    JoinConcat(Split(s, '\n'), block, '\n');
    JoinSplit(s, '\n');
  }

  lemma AppendedText(text: string, name: string, added: seq<string>)
    requires ItsEnd(text, name).None?
    ensures Rewrite(text, name, added) == Join(Rewritten(text, name, added), '\n') + "\n"
  {
    AppendedLines(StripRight(text, Blank), Marked(name, added));
  }

  /** What the lines of a rewritten text are. */
  lemma RewrittenLines(text: string, name: string, added: seq<string>)
    requires '\n' !in name && NoNewline(added)
    ensures Lines(Rewrite(text, name, added)) == Rewritten(text, name, added)
  {
    var lines := Rewritten(text, name, added);
    if ItsEnd(text, name).Some? {
      ReplacedText(text, name, added);
    } else {
      AppendedText(text, name, added);
      SplitSeparable(StripRight(text, Blank), '\n');
      MarkerText(name);
      assert NoNewline(lines);
    }
    LinesOfText(lines);
  }

  lemma MarkersAreFull(name: string)
    ensures Begin(name) != "" && End(name) != ""
  {
  }

  lemma MarkersAre(name: string)
    ensures Begin(name) == "# BEGIN AUTO-GENERATED: " + name
    ensures End(name) == "# END AUTO-GENERATED: " + name
  {
    assert AUTO_BEGIN + " " == "# BEGIN AUTO-GENERATED: " && AUTO_END + " " == "# END AUTO-GENERATED: ";
  }

  /** Line `i` is the first from `k` on that is the marker, blanks around it aside. */
  ghost predicate FirstAt(lines: seq<string>, marker: string, k: nat, i: nat) {
    k <= i < |lines| && Strip(lines[i]) == marker && forall j | k <= j < i :: Strip(lines[j]) != marker
  }

  ghost predicate NotFrom(lines: seq<string>, marker: string, k: nat) {
    forall j | k <= j < |lines| :: Strip(lines[j]) != marker
  }

  lemma DenseIs(lines: seq<string>)
    ensures Dense(lines) <= lines && forall k | |Dense(lines)| <= k < |lines| :: lines[k] == ""
  {
  }

  /**
   With both markers there, what is between them is replaced; everything before and
   behind stays, in order, but for empty lines at the end.
   */
  lemma RewriteReplaces(text: string, name: string, added: seq<string>, i0: nat, i1: nat)
    requires '\n' !in name && NoNewline(added)
    requires FirstAt(Lines(text), "# BEGIN AUTO-GENERATED: " + name, 0, i0)
    requires FirstAt(Lines(text), "# END AUTO-GENERATED: " + name, i0 + 1, i1)
    ensures
      var now := Lines(Rewrite(text, name, added));
      var all := Lines(text)[..i0 + 1] + added + Lines(text)[i1..];
      && now <= all && (forall k | |now| <= k < |all| :: all[k] == "")
      && |now| > i0 + 1 + |added|
  {
    hide Strip, Rewrite, Lines, Begin, End, FirstAt;
    MarkersAre(name);
    ReplacedOutside(text, name, added, i0, i1);
  }

  lemma ReplacedOutside(text: string, name: string, added: seq<string>, i0: nat, i1: nat)
    requires '\n' !in name && NoNewline(added)
    requires FirstAt(Lines(text), Begin(name), 0, i0) && FirstAt(Lines(text), End(name), i0 + 1, i1)
    ensures
      var now := Lines(Rewrite(text, name, added));
      var all := Lines(text)[..i0 + 1] + added + Lines(text)[i1..];
      && now <= all && (forall k | |now| <= k < |all| :: all[k] == "")
      && |now| > i0 + 1 + |added|
  {
    hide Strip, Rewrite, Lines, Begin, End, Find, Dense, Split, StripRight;
    var lines := Lines(text);
    FindAt(lines, Is(Begin(name)), 0, i0);
    FindAt(lines, Is(End(name)), i0 + 1, i1);
    RewrittenLines(text, name, added);
    StripEmpty();
    EndIsFull(lines, i1, name);
    DenseConcat([], lines[i1..]);
    DenseIs(lines[i1..]);
    BehindHead(lines[..i0 + 1] + added, lines[i1..], Dense(lines[i1..]));
  }

  lemma EndIsFull(lines: seq<string>, i: nat, name: string)
    requires i < |lines| && Strip(lines[i]) == End(name) && Strip("") == ""
    ensures lines[i] != ""
  {
    MarkersAreFull(name);
  }

  lemma BehindHead(head: seq<string>, long: seq<string>, short: seq<string>)
    requires short <= long && forall k | |short| <= k < |long| :: long[k] == ""
    ensures head + short <= head + long
    ensures forall k | |head + short| <= k < |head + long| :: (head + long)[k] == ""
  {
  }

  /** Without a begin marker, or without an end marker behind the first, the block goes to the end of the text. */
  lemma RewriteAppends(text: string, name: string, added: seq<string>)
    requires '\n' !in name && NoNewline(added)
    requires
      var lines := Lines(text);
      || NotFrom(lines, "# BEGIN AUTO-GENERATED: " + name, 0)
      || exists i0: nat :: FirstAt(lines, "# BEGIN AUTO-GENERATED: " + name, 0, i0)
           && NotFrom(lines, "# END AUTO-GENERATED: " + name, i0 + 1)
    ensures Lines(Rewrite(text, name, added)) ==
      Split(StripRight(text, Blank), '\n')
      + ["# BEGIN AUTO-GENERATED: " + name] + added + ["# END AUTO-GENERATED: " + name]
  {
    hide Strip, Rewrite, Lines, Split, Begin, End, FirstAt, NotFrom, StripRight;
    MarkersAre(name);
    AppendedOutside(text, name, added);
  }

  lemma AppendedOutside(text: string, name: string, added: seq<string>)
    requires '\n' !in name && NoNewline(added)
    requires
      var lines := Lines(text);
      || NotFrom(lines, Begin(name), 0)
      || exists i0: nat :: FirstAt(lines, Begin(name), 0, i0) && NotFrom(lines, End(name), i0 + 1)
    ensures Lines(Rewrite(text, name, added)) ==
      Split(StripRight(text, Blank), '\n') + [Begin(name)] + added + [End(name)]
  {
    hide Strip, Rewrite, Lines, Split, Begin, End, Find, StripRight;
    var lines := Lines(text);
    if i0: nat :| FirstAt(lines, Begin(name), 0, i0) && NotFrom(lines, End(name), i0 + 1) {
      FindAt(lines, Is(Begin(name)), 0, i0);
      FindNone(lines, Is(End(name)), i0 + 1);
    } else {
      FindNone(lines, Is(Begin(name)), 0);
    }
    RewrittenLines(text, name, added);
    var p := Split(StripRight(text, Blank), '\n');
    assert p + Marked(name, added) == p + [Begin(name)] + added + [End(name)];
  }

  lemma RewriteText(text: string, name: string, added: seq<string>)
    requires NoNewline(added)
    ensures Rewrite(text, name, added) == Join(Rewritten(text, name, added), '\n') + "\n"
  {
    if ItsEnd(text, name).Some? {
      ReplacedText(text, name, added);
    } else {
      AppendedText(text, name, added);
    }
  }

  // ---- Finding the block again ----

  lemma MarkersStripped(name: string)
    requires WellNamed(name)
    ensures Strip(Begin(name)) == Begin(name) && Strip(End(name)) == End(name) && Begin(name) != End(name)
  {
    assert Begin(name)[2] == 'B' && End(name)[2] == 'E';
    StripTrimmed(Begin(name));
    StripTrimmed(End(name));
  }

  /** Behind lines of another kind, one is found. */
  lemma {:induction false} FindAfter(head: seq<string>, middle: seq<string>, tail: seq<string>, f: string -> bool)
    requires tail != [] && f(tail[0]) && forall i | 0 <= i < |middle| :: !f(middle[i])
    ensures Find(head + middle + tail, f, |head|) == Some(|head| + |middle|)
    decreases |middle|
  {
    var now := head + middle + tail;
    if middle == [] {
      assert now[|head|] == tail[0];
    } else {
      assert now[|head|] == middle[0];
      FindAfter(head + [middle[0]], middle[1..], tail, f);
      assert head + [middle[0]] + middle[1..] + tail == now;
    }
  }

  /** In a replaced block the markers are where they were, the new lines between them. */
  lemma FoundAgain(
    lines: seq<string>, i0: nat, f: string -> bool, g: string -> bool, added: seq<string>, rest: seq<string>)
    requires Find(lines, f, 0) == Some(i0) && rest != [] && g(rest[0]) && forall i | 0 <= i < |added| :: !g(added[i])
    ensures
      var now := lines[..i0 + 1] + added + rest;
      && Find(now, f, 0) == Some(i0)
      && Find(now, g, i0 + 1) == Some(i0 + 1 + |added|)
  {
    var now := lines[..i0 + 1] + added + rest;
    FindLaws(lines, f, 0);
    FindAt(now, f, 0, i0);
    FindAfter(lines[..i0 + 1], added, rest, g);
  }

  /** An appended block, of lines `x` to `y`, is found if there was no begin marker before. */
  lemma AppendedFound(
    lines: seq<string>, x: string, y: string, f: string -> bool, g: string -> bool, added: seq<string>)
    requires f(x) && g(y) && Find(lines, f, 0).None? && forall i | 0 <= i < |added| :: !g(added[i])
    ensures
      var now := lines + ([x] + added + [y]);
      && Find(now, f, 0) == Some(|lines|)
      && Find(now, g, |lines| + 1) == Some(|lines| + 1 + |added|)
  {
    FindLaws(lines, f, 0);
    FindAfter([], lines, [x] + added + [y], f);
    assert [] + lines == lines;
    FindAfter(lines + [x], added, [y], g);
    assert lines + [x] + added + [y] == lines + ([x] + added + [y]);
  }

  /** An open block is closed by the end marker of the block appended after it. */
  lemma OpenFound(
    lines: seq<string>, i0: nat, x: string, y: string, f: string -> bool, g: string -> bool, added: seq<string>)
    requires !g(x) && g(y) && forall i | 0 <= i < |added| :: !g(added[i])
    requires Find(lines, f, 0) == Some(i0) && Find(lines, g, i0 + 1).None?
    ensures
      var now := lines + ([x] + added + [y]);
      && Find(now, f, 0) == Some(i0)
      && Find(now, g, i0 + 1) == Some(|now| - 1)
  {
    var now := lines + ([x] + added + [y]);
    FindLaws(lines, f, 0);
    FindLaws(lines, g, i0 + 1);
    FindAt(now, f, 0, i0);
    FindAfter(lines[..i0 + 1], lines[i0 + 1..] + [x] + added, [y], g);
    assert lines[..i0 + 1] + (lines[i0 + 1..] + [x] + added) + [y] == now;
  }

  lemma DenseTwice(lines: seq<string>)
    ensures Dense(Dense(lines)) == Dense(lines)
  {
  }

  /** The block as it is read back: the lines between the first begin marker and its end. */
  function Block(text: string, name: string): Option<seq<string>> {
    var i0, i1 := FirstBegin(text, name), ItsEnd(text, name);
    if i1.Some? then Some(Lines(text)[i0.value + 1..i1.value]) else None
  }

  lemma ReplacedParts(lines: seq<string>, i0: nat, a: seq<string>, rest: seq<string>)
    requires i0 < |lines|
    ensures
      var now := lines[..i0 + 1] + a + rest;
      && now[..i0 + 1] == lines[..i0 + 1]
      && now[i0 + 1..i0 + 1 + |a|] == a
      && now[i0 + 1 + |a|..] == rest
  {
  }

  lemma ReplacedAgain(
    once: string, lines: seq<string>, i0: nat, i1: nat, name: string, a: seq<string>, b: seq<string>)
    requires Find(lines, Is(Begin(name)), 0) == Some(i0) && i0 < i1 < |lines| && Strip(lines[i1]) == End(name)
    requires Free(a, name) && Lines(once) == lines[..i0 + 1] + a + Dense(lines[i1..])
    ensures Block(once, name) == Some(a) && Rewritten(once, name, b) == lines[..i0 + 1] + b + Dense(lines[i1..])
  {
    hide Split, StripLeft, StripRight;
    StripEmpty();
    DenseConcat([], lines[i1..]);
    FoundAgain(lines, i0, Is(Begin(name)), Is(End(name)), a, Dense(lines[i1..]));
    ReplacedParts(lines, i0, a, Dense(lines[i1..]));
    DenseTwice(lines[i1..]);
  }

  lemma WriteReplaced(text: string, name: string, a: seq<string>, b: seq<string>)
    requires WellNamed(name) && ItsEnd(text, name).Some? && Free(a, name)
    ensures Block(Rewrite(text, name, a), name) == Some(a)
    ensures Rewritten(Rewrite(text, name, a), name, b) == Rewritten(text, name, b)
  {
    var lines := Lines(text);
    var i0, i1 := FirstBegin(text, name).value, ItsEnd(text, name).value;
    FindLaws(lines, Is(End(name)), i0 + 1);
    RewrittenLines(text, name, a);
    ReplacedAgain(Rewrite(text, name, a), lines, i0, i1, name, a, b);
  }

  /** The parts of appended lines. */
  lemma AppendedParts(p: seq<string>, name: string, a: seq<string>)
    ensures
      var now := p + Marked(name, a);
      && now[..|p| + 1] == p + [Begin(name)]
      && now[|p| + 1..|p| + 1 + |a|] == a
      && now[|p| + 1 + |a|..] == [End(name)]
  {
  }

  lemma MarkedAgain(p: seq<string>, name: string, b: seq<string>)
    ensures p + [Begin(name)] + b + Dense([End(name)]) == p + Marked(name, b)
  {
    assert Dense([End(name)]) == [End(name)];
  }

  lemma FoundIn(
    now: seq<string>, p: seq<string>, x: string, y: string, f: string -> bool, g: string -> bool, a: seq<string>)
    requires now == p + ([x] + a + [y]) && f(x) && g(y) && Find(p, f, 0).None?
    requires forall i | 0 <= i < |a| :: !g(a[i])
    ensures Find(now, f, 0) == Some(|p|) && Find(now, g, |p| + 1) == Some(|p| + 1 + |a|)
  {
    hide Find;
    AppendedFound(p, x, y, f, g, a);
  }

  lemma MarkersAppended(once: string, p: seq<string>, name: string, a: seq<string>)
    requires WellNamed(name) && Find(p, Is(Begin(name)), 0).None? && Free(a, name) && Lines(once) == p + Marked(name, a)
    ensures FirstBegin(once, name) == Some(|p|) && ItsEnd(once, name) == Some(|p| + 1 + |a|)
  {
    hide Strip, Lines, Find, Begin, End, WellNamed;
    MarkersStripped(name);
    FoundIn(Lines(once), p, Begin(name), End(name), Is(Begin(name)), Is(End(name)), a);
  }

  lemma AppendedAgain(once: string, p: seq<string>, name: string, a: seq<string>, b: seq<string>)
    requires WellNamed(name) && Find(p, Is(Begin(name)), 0).None? && Free(a, name) && Lines(once) == p + Marked(name, a)
    ensures Block(once, name) == Some(a) && Rewritten(once, name, b) == p + Marked(name, b)
  {
    MarkersAppended(once, p, name, a);
    AppendedParts(p, name, a);
    MarkedAgain(p, name, b);
  }

  lemma WriteAppended(text: string, name: string, a: seq<string>, b: seq<string>)
    requires WellNamed(name) && FirstBegin(text, name).None? && Free(a, name)
    ensures Block(Rewrite(text, name, a), name) == Some(a)
    ensures Rewritten(Rewrite(text, name, a), name, b) == Rewritten(text, name, b)
  {
    RewrittenLines(text, name, a);
    MarkersOfStripped(text, Begin(name), 0);
    AppendedAgain(Rewrite(text, name, a), Split(StripRight(text, Blank), '\n'), name, a, b);
  }

  /** After writing to a closed block, the block is what was written, and writing again replaces just that. */
  lemma WriteClosed(text: string, name: string, a: seq<string>, b: seq<string>)
    requires WellNamed(name) && Closed(text, name) && Free(a, name)
    ensures Block(Rewrite(text, name, a), name) == Some(a)
    ensures Rewritten(Rewrite(text, name, a), name, b) == Rewritten(text, name, b)
  {
    if FirstBegin(text, name).Some? {
      WriteReplaced(text, name, a, b);
    } else {
      WriteAppended(text, name, a, b);
    }
  }

  /** Writing twice to an open block swallows what was between the two begin markers. */
  lemma WriteOpen(text: string, name: string, a: seq<string>, b: seq<string>)
    requires WellNamed(name) && !Closed(text, name) && Free(a, name)
    ensures |Rewritten(Rewrite(text, name, a), name, b)| < |Rewritten(text, name, b)|
  {
    assert '\n' !in name;
    hide Rewrite, Lines, Split, StripRight, Strip, Find, Begin, End, WellNamed;
    MarkersAreFull(name);
    var p := Split(StripRight(text, Blank), '\n');
    var i0 := FirstBegin(text, name).value;
    MarkersOfStripped(text, Begin(name), 0);
    MarkersOfStripped(text, End(name), i0 + 1);
    MarkersStripped(name);
    OpenFound(p, i0, Begin(name), End(name), Is(Begin(name)), Is(End(name)), a);
    RewrittenLines(text, name, a);
  }

  // ---- The marker of a badly named block is never found ----

  lemma NeverFound(text: string, name: string)
    requires !WellNamed(name)
    ensures FirstBegin(text, name).None?
  {
    var lines := Lines(text);
    LinesHaveNoNewline(text);
    forall i | 0 <= i < |lines| ensures Strip(lines[i]) != Begin(name) {
      StripTrimmed(lines[i]);
      if '\n' in name && Strip(lines[i]) == Begin(name) {
        assert '\n' in Begin(name);
        StripChars(lines[i], '\n');
      }
      assert name == "" ==> Begin(name)[|Begin(name)| - 1] == ' ';
    }
    FindNone(lines, Is(Begin(name)), 0);
  }

  /** So every write appends, and the text grows. */
  lemma WriteBadlyNamed(text: string, name: string, a: seq<string>, b: seq<string>)
    requires !WellNamed(name)
    ensures |Rewrite(Rewrite(text, name, a), name, b)| > |Rewrite(text, name, b)|
  {
    var once := Rewrite(text, name, a);
    NeverFound(text, name);
    NeverFound(once, name);
    var s := StripRight(text, Blank);
    var block := Join(Marked(name, a), '\n');
    assert once == s + "\n" + block + "\n";
    BlockStarts(name, a);
    assert once[|s| + 1] == '#';
    StripRightLaws(once, Blank);
  }

  lemma BlockStarts(name: string, a: seq<string>)
    ensures
      var block := Join(Marked(name, a), '\n');
      block != "" && block[0] == '#'
  {
    var rest := a + [End(name)];
    assert Marked(name, a) == [Begin(name)] + rest;
    JoinConcat([Begin(name)], rest, '\n');
  }

  /**
   The last write wins, for every text and all lines that can be put in a block,
   exactly if the name is good and the block is not left open.
   */
  lemma LastWriteWinsIff(text: string, name: string, a: seq<string>, b: seq<string>)
    requires Free(a, name) && NoNewline(b)
    ensures Rewrite(Rewrite(text, name, a), name, b) == Rewrite(text, name, b) <==>
      WellNamed(name) && Closed(text, name)
  {
    if !WellNamed(name) {
      WriteBadlyNamed(text, name, a, b);
    } else {
      RewriteText(Rewrite(text, name, a), name, b);
      RewriteText(text, name, b);
      if Closed(text, name) {
        WriteClosed(text, name, a, b);
      } else {
        WriteOpen(text, name, a, b);
        RewrittenLines(Rewrite(text, name, a), name, b);
        RewrittenLines(text, name, b);
      }
    }
  }

  /** In particular rewriting is idempotent there. */
  lemma RewriteIdempotent(text: string, name: string, a: seq<string>)
    requires Free(a, name) && WellNamed(name) && Closed(text, name)
    ensures Rewrite(Rewrite(text, name, a), name, a) == Rewrite(text, name, a)
  {
    LastWriteWinsIff(text, name, a, a);
  }

  /** A text with nothing but a begin marker: the second write takes the marker it finds for its own. */
  lemma OpenBlockExample(a: seq<string>, b: seq<string>)
    requires Free(a, "modules") && NoNewline(b)
    ensures Rewrite(Rewrite(Begin("modules"), "modules", a), "modules", b) != Rewrite(Begin("modules"), "modules", b)
  {
    var name := "modules";
    assert WellNamed(name);
    MarkerText(name);
    MarkersStripped(name);
    SplitPlain(Begin(name), '\n');
    assert Lines(Begin(name)) == [Begin(name)];
    LastWriteWinsIff(Begin(name), name, a, b);
  }
}
