/**
 String helpers shared by the models: splitting and joining on a separator,
 and stripping characters from either end.
 */
module Text {

  datatype Option<+T> = None | Some(value: T)

  type Byte = x: int | 0 <= x < 256

  /** The pieces of `s` between separators: always at least one piece. */
  function Split(s: string, c: char): (parts: seq<string>)
    ensures |parts| >= 1
  {
    if s == "" then [""]
    else
      var rest := Split(s[1..], c);
      if s[0] == c then [""] + rest else [[s[0]] + rest[0]] + rest[1..]
  }

  function Join(parts: seq<string>, c: char): string {
    if |parts| == 0 then ""
    else if |parts| == 1 then parts[0]
    else parts[0] + [c] + Join(parts[1..], c)
  }

  /** No piece contains the separator. */
  ghost predicate Separable(parts: seq<string>, c: char) {
    forall i | 0 <= i < |parts| :: c !in parts[i]
  }

  lemma {:induction false} SplitSeparable(s: string, c: char)
    ensures Separable(Split(s, c), c)
  {
    if s != "" {
      SplitSeparable(s[1..], c);
    }
  }

  lemma {:induction false} SplitPlain(s: string, c: char)
    requires c !in s
    ensures Split(s, c) == [s]
  {
    if s != "" {
      SplitPlain(s[1..], c);
      assert s == [s[0]] + s[1..];
    }
  }

  /** Splitting distributes over a separator. */
  lemma {:induction false} SplitConcat(a: string, b: string, c: char)
    ensures Split(a + [c] + b, c) == Split(a, c) + Split(b, c)
  {
    var s := a + [c] + b;
    if a == "" {
      assert s[1..] == b;
    } else {
      assert s[1..] == a[1..] + [c] + b;
      SplitConcat(a[1..], b, c);
    }
  }

  /** Splitting undoes joining when no piece holds the separator. */
  lemma {:induction false} SplitJoin(parts: seq<string>, c: char)
    requires parts != [] && Separable(parts, c)
    ensures Split(Join(parts, c), c) == parts
  {
    SplitPlain(parts[0], c);
    if |parts| > 1 {
      SplitConcat(parts[0], Join(parts[1..], c), c);
      SplitJoin(parts[1..], c);
      assert parts == [parts[0]] + parts[1..];
    }
  }

  /** Joining undoes splitting, for every string. */
  lemma {:induction false} JoinSplit(s: string, c: char)
    ensures Join(Split(s, c), c) == s
  {
    if s != "" {
      JoinSplit(s[1..], c);
      var rest := Split(s[1..], c);
      if s[0] == c {
        assert ([""] + rest)[1..] == rest;
      } else {
        var parts := [[s[0]] + rest[0]] + rest[1..];
        assert parts[1..] == rest[1..];
      }
      assert s == [s[0]] + s[1..];
    }
  }

  lemma {:induction false} JoinConcat(a: seq<string>, b: seq<string>, c: char)
    requires a != [] && b != []
    ensures Join(a + b, c) == Join(a, c) + [c] + Join(b, c)
  {
    if |a| == 1 {
      assert (a + b)[1..] == b;
    } else {
      assert (a + b)[1..] == a[1..] + b;
      JoinConcat(a[1..], b, c);
    }
  }

  /** Drops characters of a class from the left end. */
  function StripLeft(s: string, f: char -> bool): string {
    if s == "" || !f(s[0]) then s else StripLeft(s[1..], f)
  }

  lemma DropOneMore(s: string, k: nat, f: char -> bool)
    requires s != "" && f(s[0]) && k < |s| && (forall i | 0 <= i < k :: f(s[1..][i]))
    ensures s[k + 1..] == s[1..][k..] && (forall i | 0 <= i <= k :: f(s[i]))
  {
    forall i | 0 < i <= k ensures f(s[i]) {
      assert s[1..][i - 1] == s[i];
    }
  }

  lemma {:induction false} StripLeftLaws(s: string, f: char -> bool)
    ensures var r := StripLeft(s, f);
      && |r| <= |s| && r == s[|s| - |r|..]
      && (r != "" ==> !f(r[0]))
      && (forall i | 0 <= i < |s| - |r| :: f(s[i]))
  {
    if s != "" && f(s[0]) {
      StripLeftLaws(s[1..], f);
      DropOneMore(s, |s| - 1 - |StripLeft(s[1..], f)|, f);
    }
  }

  /** Drops characters of a class from the right end. */
  function StripRight(s: string, f: char -> bool): string {
    if s == "" || !f(s[|s| - 1]) then s else StripRight(s[..|s| - 1], f)
  }

  lemma {:induction false} StripRightLaws(s: string, f: char -> bool)
    ensures var r := StripRight(s, f);
      && |r| <= |s| && r == s[..|r|]
      && (r != "" ==> !f(r[|r| - 1]))
      && (forall i | |r| <= i < |s| :: f(s[i]))
  {
    if s != "" && f(s[|s| - 1]) {
      var t := s[..|s| - 1];
      var r := StripRight(t, f);
      StripRightLaws(t, f);
      assert StripRight(s, f) == r;
      hide StripRight;
      assert s[..|r|] == t[..|r|];
      forall i | |r| <= i < |s| ensures f(s[i]) {
        assert i < |t| ==> s[i] == t[i];
      }
    }
  }

  /** The characters that Python's argument-less `strip` removes. */
  predicate Blank(c: char) {
    var n := c as int;
    || 0x09 <= n <= 0x0D || 0x1C <= n <= 0x20 || n == 0x85 || n == 0xA0 || n == 0x1680
    || 0x2000 <= n <= 0x200A || n == 0x2028 || n == 0x2029 || n == 0x202F || n == 0x205F || n == 0x3000
  }

  function Strip(s: string): string {
    StripRight(StripLeft(s, Blank), Blank)
  }

  /** No blank at either end, so that `strip` has nothing to do. */
  predicate Trimmed(s: string) {
    s == "" || (!Blank(s[0]) && !Blank(s[|s| - 1]))
  }

  lemma StripTrimmed(s: string)
    ensures Trimmed(Strip(s)) && |Strip(s)| <= |s|
    ensures if Trimmed(s) then Strip(s) == s else |Strip(s)| < |s|
  {
    var l := StripLeft(s, Blank);
    var r := StripRight(l, Blank);
    StripLeftLaws(s, Blank);
    StripRightLaws(l, Blank);
    if r != "" { assert r[0] == l[0]; }
    if Trimmed(s) && s != "" {
      assert l == s;
    }
  }

  /** Stripping adds no characters. */
  lemma StripChars(s: string, c: char)
    requires c in Strip(s)
    ensures c in s
  {
    var l := StripLeft(s, Blank);
    StripLeftLaws(s, Blank);
    StripRightLaws(l, Blank);
    assert c in l;
  }

  predicate AsciiDigit(c: char) { '0' <= c <= '9' }

  predicate AsciiAlnum(c: char) {
    AsciiDigit(c) || 'a' <= c <= 'z' || 'A' <= c <= 'Z'
  }

  /** ASCII lower-casing of one character. */
  function LowerChar(c: char): char {
    if 'A' <= c <= 'Z' then (c as int + 32) as char else c
  }

  function Lower(s: string): (r: string)
    ensures |r| == |s|
  {
    seq(|s|, i requires 0 <= i < |s| => LowerChar(s[i]))
  }
}
