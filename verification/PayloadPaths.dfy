/**
 Payload paths as the package verifier reads them: normalising a path, testing
 whether it lies under a prefix, and collecting the undeclared ones. The tests
 are made on strings; the lemmas relate them to lists of segments.
 */
module PayloadPaths {
  import opened Text

  predicate IsSlash(c: char) { c == '/' }

  predicate IsDotOrSlash(c: char) { c == '.' || c == '/' }

  /** Backslashes become slashes. */
  function Slashes(s: string): (r: string)
    ensures |r| == |s| && '\\' !in r
    ensures forall i | 0 <= i < |s| :: r[i] == if s[i] == '\\' then '/' else s[i]
  {
    seq(|s|, i requires 0 <= i < |s| => if s[i] == '\\' then '/' else s[i])
  }

  predicate Real(part: string) {
    part != "" && part != "."
  }

  function Reals(parts: seq<string>): seq<string> {
    if parts == [] then []
    else (if Real(parts[0]) then [parts[0]] else []) + Reals(parts[1..])
  }

  /** What is left of a path before it is taken apart. */
  function Trunk(path: string): string {
    StripRight(StripLeft(StripLeft(Slashes(Strip(path)), IsDotOrSlash), IsSlash), IsSlash)
  }

  /** The real parts of a trunk, put together again. */
  function Assemble(trunk: string): string {
    Join(Reals(Split(trunk, '/')), '/')
  }

  /** `normalize_payload_path` */
  function Normalize(path: string): string {
    Assemble(Trunk(path))
  }

  /** `s` is the prefix itself, or goes on after it with a slash. */
  predicate Under(s: string, prefix: string) {
    s == prefix || prefix + "/" <= s
  }

  /** `payload_path_matches_prefix` */
  predicate Matches(path: string, prefix: string) {
    var p, q := Normalize(path), Normalize(prefix);
    if p == "" || q == "" then p == q else Under(p, q)
  }

  // ---- Lists of parts ----

  ghost predicate AllReal(parts: seq<string>) {
    forall i | 0 <= i < |parts| :: Real(parts[i])
  }

  lemma {:induction false} RealsConcat(a: seq<string>, b: seq<string>)
    ensures Reals(a + b) == Reals(a) + Reals(b)
  {
    if a == [] {
      assert a + b == b;
    } else {
      assert (a + b)[1..] == a[1..] + b;
      RealsConcat(a[1..], b);
    }
  }

  lemma {:induction false} RealsOfReal(parts: seq<string>)
    requires AllReal(parts)
    ensures Reals(parts) == parts
  {
    if parts != [] {
      RealsOfReal(parts[1..]);
      assert parts == [parts[0]] + parts[1..];
    }
  }

  lemma {:induction false} RealsAreReal(parts: seq<string>)
    ensures AllReal(Reals(parts))
    ensures forall part | part in Reals(parts) :: part in parts
  {
    if parts != [] {
      RealsAreReal(parts[1..]);
      assert parts == [parts[0]] + parts[1..];
    }
  }

  lemma {:induction false} RealsShorten(parts: seq<string>)
    ensures |Join(Reals(parts), '/')| <= |Join(parts, '/')|
    ensures |Reals(parts)| <= |parts|
  {
    if parts != [] {
      RealsShorten(parts[1..]);
      if Real(parts[0]) && Reals(parts[1..]) != [] {
        JoinConcat([parts[0]], Reals(parts[1..]), '/');
      } else if Real(parts[0]) {
        assert Reals(parts) == [parts[0]];
      } else {
        assert Reals(parts) == Reals(parts[1..]);
      }
    }
  }

  /** Text and its parts hold the same characters, apart from the separator. */
  lemma {:induction false} JoinChars(parts: seq<string>, c: char)
    requires c in Join(parts, '/') && c != '/'
    ensures exists i :: 0 <= i < |parts| && c in parts[i]
  {
    if |parts| == 1 {
      assert c in parts[0];
    } else if c in parts[0] {
      assert c in parts[0];
    } else {
      JoinChars(parts[1..], c);
      var i :| 0 <= i < |parts| - 1 && c in parts[1..][i];
      assert c in parts[i + 1];
    }
  }

  lemma {:induction false} SplitChars(s: string, i: nat, c: char)
    requires i < |Split(s, '/')| && c in Split(s, '/')[i]
    ensures c in s
  {
    if s != "" {
      var rest := Split(s[1..], '/');
      if s[0] == '/' {
        if i > 0 {
          SplitChars(s[1..], i - 1, c);
        }
      } else if i > 0 {
        SplitChars(s[1..], i, c);
      } else if c != s[0] {
        SplitChars(s[1..], 0, c);
      }
    }
  }

  /** The first part of a text starts as the text does. */
  lemma FirstPart(s: string)
    requires s != "" && s[0] != '/'
    ensures Split(s, '/')[0] != "" && Split(s, '/')[0][0] == s[0]
  {
  }

  /** A text that ends with a slash has an empty last part. */
  lemma LastPart(s: string)
    requires s != "" && s[|s| - 1] == '/'
    ensures !AllReal(Split(s, '/'))
  {
    SplitConcat(s[..|s| - 1], "", '/');
    assert s == s[..|s| - 1] + ['/'] + "";
    var parts := Split(s, '/');
    assert parts[|parts| - 1] == "";
  }

  /** Joined text starts and ends as its first and last parts do. */
  lemma {:induction false} JoinEnds(q: seq<string>)
    requires q != [] && forall i | 0 <= i < |q| :: q[i] != ""
    ensures
      var s := Join(q, '/');
      var last := q[|q| - 1];
      s != "" && s[0] == q[0][0] && s[|s| - 1] == last[|last| - 1]
  {
    if |q| > 1 {
      var rest := Join(q[1..], '/');
      JoinEnds(q[1..]);
      var s := Join(q, '/');
      assert s == q[0] + ['/'] + rest;
      hide Join;
      assert s[|s| - 1] == rest[|rest| - 1] && s[0] == q[0][0];
    }
  }

  // ---- What normalising gives ----

  /** The segments of a normalised path. */
  function Segments(s: string): seq<string> {
    if s == "" then [] else Split(s, '/')
  }

  lemma SegmentsOf(trunk: string)
    ensures Segments(Assemble(trunk)) == Reals(Split(trunk, '/'))
  {
    var parts := Split(trunk, '/');
    var kept := Reals(parts);
    RealsAreReal(parts);
    if kept != [] {
      SplitSeparable(trunk, '/');
      forall i | 0 <= i < |kept| ensures '/' !in kept[i] {
        assert kept[i] in parts;
      }
      SplitJoin(kept, '/');
      assert Real(kept[0]);
      assert Join(kept, '/') != "";
    }
  }

  /** Normalised text but for blanks at its ends. */
  ghost predicate Shaped(s: string) {
    '\\' !in s && (s != "" ==> s[0] != '.') && AllReal(Segments(s))
  }

  lemma AssembleChars(trunk: string, c: char)
    requires c in Assemble(trunk) && c != '/'
    ensures c in trunk
  {
    var parts := Split(trunk, '/');
    JoinChars(Reals(parts), c);
    var i :| 0 <= i < |Reals(parts)| && c in Reals(parts)[i];
    RealsAreReal(parts);
    assert Reals(parts)[i] in parts;
    var k :| 0 <= k < |parts| && parts[k] == Reals(parts)[i];
    SplitChars(trunk, k, c);
  }

  lemma AssembleShape(trunk: string)
    requires '\\' !in trunk && (trunk != "" ==> !IsDotOrSlash(trunk[0]))
    ensures Shaped(Assemble(trunk))
  {
    var parts := Split(trunk, '/');
    RealsAreReal(parts);
    SegmentsOf(trunk);
    if '\\' in Assemble(trunk) {
      AssembleChars(trunk, '\\');
    }
    if trunk != "" {
      FirstPart(trunk);
      assert Reals(parts)[0] == parts[0];
    }
  }

  lemma TrunkShape(path: string)
    ensures '\\' !in Trunk(path)
    ensures Trunk(path) != "" ==> !IsDotOrSlash(Trunk(path)[0])
  {
    var s := Slashes(Strip(path));
    var a := StripLeft(s, IsDotOrSlash);
    StripLeftLaws(s, IsDotOrSlash);
    assert StripLeft(a, IsSlash) == a;
    StripRightLaws(a, IsSlash);
    assert forall c | c in a :: c in s;
    assert forall c | c in Trunk(path) :: c in a;
  }

  /** Whatever it is given, normalising gives shaped text. */
  lemma NormalizeShape(path: string)
    ensures Shaped(Normalize(path))
  {
    TrunkShape(path);
    AssembleShape(Trunk(path));
  }

  lemma ShapedEnds(s: string)
    requires Shaped(s) && s != ""
    ensures !IsDotOrSlash(s[0]) && s[|s| - 1] != '/'
  {
    assert Real(Segments(s)[0]);
    if s[|s| - 1] == '/' {
      LastPart(s);
    }
  }

  /** Shaped text without blanks at its ends is already normal. */
  lemma ShapedIsSettled(s: string)
    requires Shaped(s) && Trimmed(s)
    ensures Normalize(s) == s
  {
    StripTrimmed(s);
    assert Slashes(s) == s;
    if s == "" {
      assert Split("", '/') == [""];
    } else {
      ShapedEnds(s);
      assert Trunk(s) == s;
      RealsOfReal(Split(s, '/'));
      JoinSplit(s, '/');
    }
  }

  lemma AssembleShortens(trunk: string)
    ensures |Assemble(trunk)| <= |trunk|
  {
    RealsShorten(Split(trunk, '/'));
    JoinSplit(trunk, '/');
  }

  lemma NormalizeShortens(path: string)
    ensures |Normalize(path)| <= |Strip(path)|
  {
    AssembleShortens(Trunk(path));
    var a := Slashes(Strip(path));
    var b := StripLeft(a, IsDotOrSlash);
    StripLeftLaws(a, IsDotOrSlash);
    StripLeftLaws(b, IsSlash);
    StripRightLaws(StripLeft(b, IsSlash), IsSlash);
  }

  lemma SettledWhenTrimmed(s: string)
    requires Shaped(s)
    ensures Normalize(s) == s <==> Trimmed(s)
  {
    if Trimmed(s) {
      ShapedIsSettled(s);
    } else {
      NormalizeShortens(s);
      StripTrimmed(s);
    }
  }

  /** Normalising again changes nothing exactly when nothing is left to strip. */
  lemma NormalizeSettles(path: string)
    ensures Normalize(Normalize(path)) == Normalize(path) <==> Trimmed(Normalize(path))
  {
    NormalizeShape(path);
    SettledWhenTrimmed(Normalize(path));
  }

  // ---- When normalising is idempotent ----

  /** The path without the blanks around it and the dots and slashes in front. */
  function Bare(path: string): string {
    StripLeft(Slashes(Strip(path)), IsDotOrSlash)
  }

  /** The bare path is empty, or neither starts with a blank nor has one at the end of its last real part. */
  predicate SettlesAtOnce(path: string) {
    var b := Bare(path);
    var parts := Reals(Split(b, '/'));
    b == "" || (!Blank(b[0]) && parts != [] && SolidEnd(parts[|parts| - 1]))
  }

  predicate SolidEnd(part: string) {
    part != "" && !Blank(part[|part| - 1])
  }

  /** Slashes at the end make no real part. */
  lemma {:induction false} RealsWithoutSlashes(s: string)
    ensures Reals(Split(StripRight(s, IsSlash), '/')) == Reals(Split(s, '/'))
  {
    if s != "" && s[|s| - 1] == '/' {
      var t := s[..|s| - 1];
      RealsWithoutSlashes(t);
      SplitConcat(t, "", '/');
      assert s == t + ['/'] + "";
      RealsConcat(Split(t, '/'), [""]);
      assert Split("", '/') == [""] && Reals([""]) == [];
    }
  }

  lemma PartsOfBare(path: string)
    ensures Segments(Normalize(path)) == Reals(Split(Bare(path), '/'))
    ensures Bare(path) != "" ==> !IsDotOrSlash(Bare(path)[0])
  {
    var s := Slashes(Strip(path));
    StripLeftLaws(s, IsDotOrSlash);
    hide Strip, Slashes;
    assert StripLeft(Bare(path), IsSlash) == Bare(path);
    RealsWithoutSlashes(Bare(path));
    SegmentsOf(Trunk(path));
  }

  /** The ends of the result are the start of the bare path and the end of its last real part. */
  lemma EndsOfResult(b: string, n: string)
    requires Segments(n) == Reals(Split(b, '/')) && (b != "" ==> !IsDotOrSlash(b[0]))
    ensures
      var parts := Reals(Split(b, '/'));
      if b == "" then n == ""
      else
        && n != "" && parts != [] && parts[|parts| - 1] != ""
        && n[0] == b[0] && n[|n| - 1] == parts[|parts| - 1][|parts[|parts| - 1]| - 1]
  {
    var parts := Reals(Split(b, '/'));
    if b != "" {
      FirstPart(b);
      RealsAreReal(Split(b, '/'));
      assert parts[0] == Split(b, '/')[0];
      assert forall i | 0 <= i < |parts| :: Real(parts[i]);
      JoinEnds(parts);
      JoinSplit(n, '/');
    }
  }

  /** Normalising is idempotent at a path if and only if the path settles at once. */
  lemma NormalizeIdempotentIff(path: string)
    ensures Normalize(Normalize(path)) == Normalize(path) <==> SettlesAtOnce(path)
  {
    hide Normalize, Bare, Reals, Segments, Split;
    NormalizeSettles(path);
    PartsOfBare(path);
    EndsOfResult(Bare(path), Normalize(path));
  }

  /** The paths that normalising leaves alone. */
  lemma SettledIff(s: string)
    ensures Normalize(s) == s <==> Shaped(s) && Trimmed(s)
  {
    NormalizeShape(s);
    if Shaped(s) {
      SettledWhenTrimmed(s);
    }
  }

  ghost predicate BlankFree(s: string) {
    forall c | c in s :: !Blank(c)
  }

  lemma TrunkChars(path: string, c: char)
    requires c in Trunk(path)
    ensures c in path || c == '/'
  {
    var a := Slashes(Strip(path));
    var b := StripLeft(a, IsDotOrSlash);
    var d := StripLeft(b, IsSlash);
    StripRightLaws(d, IsSlash);
    StripLeftLaws(b, IsSlash);
    StripLeftLaws(a, IsDotOrSlash);
    assert c in d && c in b && c in a;
    if c != '/' {
      StripChars(path, c);
    }
  }

  lemma NormalizeChars(path: string, c: char)
    requires c in Normalize(path)
    ensures c in path || c == '/'
  {
    if c != '/' {
      AssembleChars(Trunk(path), c);
      TrunkChars(path, c);
    }
  }

  /** On text without white space normalising is idempotent. */
  lemma NormalizeIdempotent(path: string)
    requires BlankFree(path)
    ensures Normalize(Normalize(path)) == Normalize(path)
  {
    var n := Normalize(path);
    if n != "" {
      NormalizeChars(path, n[0]);
      NormalizeChars(path, n[|n| - 1]);
    }
    NormalizeSettles(path);
  }

  /** A blank that was inside comes to the end and is stripped the second time. */
  lemma NormalizeNotIdempotent()
    ensures Normalize("./ a") == " a" && Normalize(Normalize("./ a")) != " a"
  {
    var s := "./ a";
    StripTrimmed(s);
    assert Slashes(s) == s;
    assert s[1..] == "/ a" && s[1..][1..] == " a";
    assert Trunk(s) == " a";
    SplitPlain(" a", '/');
    NormalizeSettles(s);
  }

  // ---- Prefixes ----

  /** The string test is the segment test, for all text. */
  lemma UnderIff(s: string, prefix: string)
    ensures Under(s, prefix) <==> Split(prefix, '/') <= Split(s, '/')
  {
    if prefix + "/" <= s {
      var rest := s[|prefix| + 1..];
      assert s == prefix + ['/'] + rest;
      SplitConcat(prefix, rest, '/');
    }
    if Split(prefix, '/') <= Split(s, '/') {
      var a, b := Split(prefix, '/'), Split(s, '/');
      var rest := b[|a|..];
      assert b == a + rest;
      JoinSplit(prefix, '/');
      JoinSplit(s, '/');
      if rest != [] {
        JoinConcat(a, rest, '/');
      } else {
        assert a == b;
      }
    }
  }

  /** For paths that do not normalise to nothing, matching is the prefix relation on segments. */
  lemma MatchesIff(path: string, prefix: string)
    requires Normalize(path) != "" && Normalize(prefix) != ""
    ensures Matches(path, prefix) <==> Segments(Normalize(prefix)) <= Segments(Normalize(path))
  {
    UnderIff(Normalize(path), Normalize(prefix));
  }

  /** A prefix of the segments, where no segments at all are a prefix of nothing else. */
  predicate Covers(prefix: seq<string>, path: seq<string>) {
    prefix <= path && (prefix == [] ==> path == [])
  }

  /** For all text, matching is covering by segments. */
  lemma MatchesCovers(path: string, prefix: string)
    ensures Matches(path, prefix) <==> Covers(Segments(Normalize(prefix)), Segments(Normalize(path)))
  {
    if Normalize(path) != "" && Normalize(prefix) != "" {
      MatchesIff(path, prefix);
    }
  }

  lemma MatchesTransitive(a: string, b: string, c: string)
    requires Matches(a, b) && Matches(b, c)
    ensures Matches(a, c)
  {
    if Normalize(a) != "" && Normalize(b) != "" && Normalize(c) != "" {
      MatchesIff(a, b);
      MatchesIff(b, c);
      MatchesIff(a, c);
    }
  }

  // ---- Normalising below a settled prefix ----

  ghost predicate Settled(s: string) {
    s != "" && Normalize(s) == s
  }

  lemma StripUnder(s: string, prefix: string, f: char -> bool)
    requires prefix != "" && !f(prefix[0]) && !f(prefix[|prefix| - 1]) && Under(s, prefix)
    ensures Under(StripRight(s, f), prefix) && StripLeft(s, f) == s
  {
    var r := StripRight(s, f);
    StripRightLaws(s, f);
    assert s[0] == prefix[0];
    assert s[|prefix| - 1] == prefix[|prefix| - 1];
    assert |r| >= |prefix|;
    assert r[..|prefix|] == prefix;
    if |r| > |prefix| {
      assert prefix + "/" == s[..|prefix| + 1];
      assert r[..|prefix| + 1] == prefix + "/";
    }
  }

  lemma SlashesUnder(s: string, prefix: string)
    requires '\\' !in prefix && Under(s, prefix)
    ensures Under(Slashes(s), prefix)
  {
    assert Slashes(s)[..|prefix|] == prefix;
    if s != prefix {
      assert (prefix + "/")[|prefix|] == '/';
      assert Slashes(s)[..|prefix| + 1] == prefix + "/";
    }
  }

  lemma SettledEnds(s: string)
    requires Settled(s)
    ensures Shaped(s) && Trimmed(s) && !IsDotOrSlash(s[0]) && s[|s| - 1] != '/'
  {
    SettledIff(s);
    ShapedEnds(s);
  }

  lemma TrunkUnder(s: string, prefix: string)
    requires Settled(prefix) && Under(s, prefix)
    ensures Under(Trunk(s), prefix)
  {
    SettledEnds(prefix);
    StripUnder(s, prefix, Blank);
    SlashesUnder(Strip(s), prefix);
    var a := Slashes(Strip(s));
    StripUnder(a, prefix, IsSlash);
    assert StripLeft(a, IsDotOrSlash) == a by {
      assert a[0] == prefix[0];
    }
  }

  /** The segments of a settled prefix are the first segments of everything under it, normalised. */
  lemma AssembleUnder(trunk: string, prefix: string)
    requires prefix != "" && Shaped(prefix) && Under(trunk, prefix)
    ensures Under(Assemble(trunk), prefix)
  {
    UnderIff(trunk, prefix);
    var a, b := Split(prefix, '/'), Split(trunk, '/');
    assert b == a + b[|a|..];
    RealsConcat(a, b[|a|..]);
    RealsOfReal(a);
    SegmentsOf(trunk);
    UnderIff(Assemble(trunk), prefix);
  }

  /** Normalising keeps a path under any settled prefix it is under. */
  lemma NormalizeUnder(s: string, prefix: string)
    requires Settled(prefix) && Under(s, prefix)
    ensures Under(Normalize(s), prefix)
  {
    TrunkUnder(s, prefix);
    SettledEnds(prefix);
    AssembleUnder(Trunk(s), prefix);
  }

  // ---- Undeclared paths ----

  /** The path is empty, allowed as it stands, or under an allowed prefix. */
  ghost predicate Allowed(path: string, prefixes: seq<string>, exact: seq<string>) {
    var n := Normalize(path);
    || n == ""
    || (exists e | e in exact :: Normalize(e) == n)
    || (exists q | q in prefixes :: Normalize(q) != "" && Matches(n, Normalize(q)))
  }

  lemma SegmentsInjective(a: string, b: string)
    requires Segments(a) == Segments(b)
    ensures a == b
  {
    JoinSplit(a, '/');
    JoinSplit(b, '/');
  }

  /** The segments of a path that is normalised twice, as every payload path is before it is compared. */
  function Read(path: string): seq<string> {
    Segments(Normalize(Normalize(path)))
  }

  /** For all paths, being allowed is a matter of segments. */
  lemma AllowedIff(path: string, prefixes: seq<string>, exact: seq<string>)
    ensures
      var n := Segments(Normalize(path));
      Allowed(path, prefixes, exact) <==>
        || n == []
        || (exists e | e in exact :: Segments(Normalize(e)) == n)
        || (exists q | q in prefixes :: Segments(Normalize(q)) != [] && Covers(Read(q), Read(path)))
  {
    var n := Normalize(path);
    hide Normalize, Matches, Covers;
    forall e | e in exact && Segments(Normalize(e)) == Segments(n) ensures Normalize(e) == n {
      SegmentsInjective(Normalize(e), n);
    }
    forall q ensures Matches(n, Normalize(q)) <==> Covers(Read(q), Read(path)) {
      MatchesCovers(n, Normalize(q));
    }
  }

  /** `unexpected_payload_paths`, without the final sort. */
  method UnexpectedPaths(paths: seq<string>, prefixes: seq<string>, exact: seq<string>)
    returns (unexpected: set<string>)
    ensures unexpected == set p | p in paths && !Allowed(p, prefixes, exact) :: Normalize(p)
    ensures unexpected == {} <==> forall p | p in paths :: Allowed(p, prefixes, exact)
  {
    unexpected := {};
    for i := 0 to |paths|
      invariant unexpected == set p | p in paths[..i] && !Allowed(p, prefixes, exact) :: Normalize(p)
    {
      assert paths[..i + 1] == paths[..i] + [paths[i]];
      var n := Normalize(paths[i]);
      if n == "" || exists e | e in exact :: Normalize(e) == n {
        continue;
      }
      if exists q | q in prefixes :: Normalize(q) != "" && Matches(n, Normalize(q)) {
        continue;
      }
      unexpected := unexpected + {n};
    }
    assert paths[..|paths|] == paths;
    forall p | p in paths && !Allowed(p, prefixes, exact) ensures Normalize(p) in unexpected {
    }
  }
}
