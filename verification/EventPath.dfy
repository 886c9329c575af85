/**
 The event path that the bridge publishes on: `encode_object_event_id` and the
 segment sanitiser `safe_segment` of event_bridge.rs.
 */
module EventPath {
  import opened Text

  /** What `Url::parse` reports about an object name that parses and has a host. */
  datatype ParsedUrl = ParsedUrl(host: string, segments: seq<string>)

  /** The foreign functions: URL parsing and SHA-256. */
  datatype Foreign = Foreign(parse: string -> Option<ParsedUrl>, sha256: string -> seq<Byte>)

  predicate HexDigit(c: char) {
    AsciiDigit(c) || 'a' <= c <= 'f' || 'A' <= c <= 'F'
  }

  predicate SafeChar(c: char) {
    AsciiAlnum(c) || c == '.' || c == '_' || c == '-'
  }

  /** How many characters the escape starting at `s[0] == '%'` covers: one to three. */
  function EscapeLength(s: string): (n: nat)
    requires s != ""
    ensures 1 <= n <= 3 && n <= |s|
  {
    if |s| == 1 || !HexDigit(s[1]) then 1
    else if |s| == 2 || !HexDigit(s[2]) then 2
    else 3
  }

  /** The sanitised text, read left to right; an escape becomes one underscore. */
  function Scrub(s: string): (r: string)
    ensures |r| <= |s|
  {
    if s == "" then ""
    else if s[0] == '%' then "_" + Scrub(s[EscapeLength(s)..])
    else [if SafeChar(s[0]) then s[0] else '_'] + Scrub(s[1..])
  }

  function Safe(s: string): string {
    if s == "" then "_" else Scrub(s)
  }

  /** A path segment the bridge may publish under: not empty, safe characters only. */
  ghost predicate SafeSegmentText(s: string) {
    s != "" && forall i | 0 <= i < |s| :: SafeChar(s[i])
  }

  lemma {:induction false} ScrubIsSafe(s: string)
    ensures forall i | 0 <= i < |Scrub(s)| :: SafeChar(Scrub(s)[i])
    ensures s != "" ==> Scrub(s) != ""
  {
    if s != "" {
      if s[0] == '%' {
        ScrubIsSafe(s[EscapeLength(s)..]);
      } else {
        ScrubIsSafe(s[1..]);
      }
    }
  }

  lemma {:induction false} ScrubKeepsSafe(s: string)
    requires forall i | 0 <= i < |s| :: SafeChar(s[i])
    ensures Scrub(s) == s
  {
    if s != "" {
      ScrubKeepsSafe(s[1..]);
      assert s == [s[0]] + s[1..];
    }
  }

  /**
   The sanitiser's result is always a safe segment, the sanitiser leaves exactly
   the safe segments alone, it is idempotent, and it never lengthens an input
   that has at least one character.
   */
  lemma SafeSegmentLaws(s: string)
    ensures SafeSegmentText(Safe(s))
    ensures Safe(s) == s <==> SafeSegmentText(s)
    ensures Safe(Safe(s)) == Safe(s)
    ensures if s == "" then Safe(s) == "_" else Safe(s) == Scrub(s) && |Safe(s)| <= |s|
  {
    ScrubIsSafe(s);
    ScrubKeepsSafe(Safe(s));
    if SafeSegmentText(s) {
      ScrubKeepsSafe(s);
    }
  }

  lemma LowerCase(c: char)
    ensures 'a' <= c <= 'z' <==> c in "abcdefghijklmnopqrstuvwxyz"
  {
    var letters := "abcdefghijklmnopqrstuvwxyz";
    if 'a' <= c <= 'z' {
      assert letters[c as int - 'a' as int] == c;
    }
  }

  lemma UpperCase(c: char)
    ensures 'A' <= c <= 'Z' <==> c in "ABCDEFGHIJKLMNOPQRSTUVWXYZ"
  {
    var letters := "ABCDEFGHIJKLMNOPQRSTUVWXYZ";
    if 'A' <= c <= 'Z' {
      assert letters[c as int - 'A' as int] == c;
    }
  }

  /** Lower-casing: each capital letter to its small one, everything else to itself. */
  lemma LowerIs(c: char, k: nat)
    requires k < 26
    ensures LowerChar("ABCDEFGHIJKLMNOPQRSTUVWXYZ"[k]) == "abcdefghijklmnopqrstuvwxyz"[k]
    ensures c !in "ABCDEFGHIJKLMNOPQRSTUVWXYZ" ==> LowerChar(c) == c
  {
    UpperCase(c);
  }

  lemma DecimalDigits(c: char)
    ensures AsciiDigit(c) <==> c in "0123456789"
  {
    var digits := "0123456789";
    if AsciiDigit(c) {
      assert digits[c as int - '0' as int] == c;
    }
  }

  lemma HexLetters(c: char)
    ensures 'a' <= c <= 'f' <==> c in "abcdef"
    ensures 'A' <= c <= 'F' <==> c in "ABCDEF"
  {
    if 'a' <= c <= 'f' {
      assert "abcdef"[c as int - 'a' as int] == c;
    } else if 'A' <= c <= 'F' {
      assert "ABCDEF"[c as int - 'A' as int] == c;
    }
  }

  lemma HexIs(c: char)
    ensures HexDigit(c) <==> c in "0123456789" || c in "abcdef" || c in "ABCDEF"
  {
    DecimalDigits(c);
    HexLetters(c);
    hide AsciiDigit;
  }

  /** The characters that are kept, written out. */
  lemma SafeIs(c: char)
    ensures SafeChar(c) <==>
      || c in "0123456789" || c in "abcdefghijklmnopqrstuvwxyz" || c in "ABCDEFGHIJKLMNOPQRSTUVWXYZ"
      || c == '.' || c == '_' || c == '-'
  {
    DecimalDigits(c);
    LowerCase(c);
    UpperCase(c);
    hide AsciiDigit;
  }

  ghost predicate StartsHex(s: string) {
    s != "" && HexDigit(s[0])
  }

  /**
   The sanitiser, piece by piece: a safe character stays; '%' with at most two hex
   digits after it, as many as there are, becomes one underscore, and so does any
   other character; and the text goes on behind.
   */
  lemma ScrubPieces(c: char, h: char, g: char, rest: string)
    requires HexDigit(h) && HexDigit(g)
    ensures c != '%' ==> Scrub([c] + rest) == [if SafeChar(c) then c else '_'] + Scrub(rest)
    ensures Scrub(['%', h, g] + rest) == "_" + Scrub(rest)
    ensures !StartsHex(rest) ==> Scrub(['%', h] + rest) == "_" + Scrub(rest)
    ensures !StartsHex(rest) ==> Scrub(['%'] + rest) == "_" + Scrub(rest)
  {
    hide HexDigit, SafeChar;
    assert ([c] + rest)[1..] == rest && (['%'] + rest)[1..] == rest;
    assert (['%', h, g] + rest)[3..] == rest && (['%', h] + rest)[2..] == rest;
  }

  /** One turn of the sanitiser's loop. */
  lemma {:induction false} ScrubStep(done: string, rest: string)
    requires rest != ""
    ensures rest[0] == '%' ==> done + Scrub(rest) == (done + "_") + Scrub(rest[EscapeLength(rest)..])
    ensures rest[0] != '%' ==>
      done + Scrub(rest) == (done + (if SafeChar(rest[0]) then [rest[0]] else "_")) + Scrub(rest[1..])
  {
    hide HexDigit, SafeChar;
    var n := if rest[0] == '%' then EscapeLength(rest) else 1;
    var c := if rest[0] != '%' && SafeChar(rest[0]) then [rest[0]] else "_";
    assert done + (c + Scrub(rest[n..])) == done + c + Scrub(rest[n..]);
  }

  /** `safe_segment`: the loop over a peekable cursor. */
  method SafeSegment(input: string) returns (value: string)
    ensures value == Safe(input)
    ensures SafeSegmentText(value)
  {
    value := "";
    var next := 0;
    while next < |input|
      invariant 0 <= next <= |input|
      invariant value + Scrub(input[next..]) == Scrub(input)
    {
      ghost var rest := input[next..];
      var ch := input[next];
      next := next + 1;
      if ch == '%' {
        if next < |input| && HexDigit(input[next]) {
          next := next + 1;
          if next < |input| && HexDigit(input[next]) {
            next := next + 1;
          }
        }
        assert input[next..] == rest[EscapeLength(rest)..];
        ScrubStep(value, rest);
        value := value + "_";
      } else {
        assert input[next..] == rest[1..];
        ScrubStep(value, rest);
        value := value + (if SafeChar(ch) then [ch] else "_");
      }
    }
    if value == "" {
      value := "_";
    }
    SafeSegmentLaws(input);
  }

  function HexChar(n: nat): (c: char)
    requires n < 16
    ensures HexDigit(c) && SafeChar(c)
  {
    if n < 10 then (n + '0' as int) as char else (n - 10 + 'a' as int) as char
  }

  function HexText(bytes: seq<Byte>): (r: string)
    ensures |r| == 2 * |bytes|
    ensures forall i | 0 <= i < |r| :: SafeChar(r[i])
  {
    if bytes == [] then ""
    else [HexChar(bytes[0] / 16), HexChar(bytes[0] % 16)] + HexText(bytes[1..])
  }

  /** SHA-256 yields 32 bytes; the facts below need only that there are eight. */
  ghost predicate DigestsAreLong(f: Foreign) {
    forall s :: |f.sha256(s)| >= 8
  }

  function ShortHash(f: Foreign, s: string): string {
    var d := f.sha256(s);
    HexText(if |d| <= 8 then d else d[..8])
  }

  /** The characters that Rust's `trim` removes. */
  predicate RustBlank(c: char) {
    Blank(c) && !(0x1C <= c as int <= 0x1F)
  }

  /** A segment whose trimmed text is not empty. */
  predicate Visible(s: string) {
    exists i | 0 <= i < |s| :: !RustBlank(s[i])
  }

  /** The visible URL segments, each sanitised. */
  function SafeVisible(segments: seq<string>): (r: seq<string>) {
    if segments == [] then []
    else (if Visible(segments[0]) then [Safe(segments[0])] else []) + SafeVisible(segments[1..])
  }

  /** The segments between the leading "/obj" and the event. */
  function ObjectSegments(f: Foreign, obj: string): (r: seq<string>)
    ensures |r| >= 2
  {
    match f.parse(obj)
    case Some(url) =>
      var visible := SafeVisible(url.segments);
      [Safe(Lower(url.host))] +
      (if visible == [] then ["by_hash", ShortHash(f, obj)] else visible)
    case None => ["by_hash", ShortHash(f, obj)]
  }

  /** `encode_object_event_id` */
  function Encode(f: Foreign, obj: string, event: string): string {
    "/obj/" + Join(ObjectSegments(f, obj), '/') + "/" + Safe(event)
  }

  lemma {:induction false} SafeVisibleIsSafe(segments: seq<string>)
    ensures forall i | 0 <= i < |SafeVisible(segments)| :: SafeSegmentText(SafeVisible(segments)[i])
  {
    if segments != [] {
      SafeVisibleIsSafe(segments[1..]);
      SafeSegmentLaws(segments[0]);
    }
  }

  lemma ObjectSegmentsAreSafe(f: Foreign, obj: string)
    requires DigestsAreLong(f)
    ensures forall i | 0 <= i < |ObjectSegments(f, obj)| :: SafeSegmentText(ObjectSegments(f, obj)[i])
  {
    assert SafeSegmentText("by_hash");
    assert SafeSegmentText(ShortHash(f, obj));
    match f.parse(obj)
    case Some(url) =>
      SafeSegmentLaws(Lower(url.host));
      SafeVisibleIsSafe(url.segments);
    case None =>
  }

  lemma VisibleIff(s: string)
    ensures Visible(s) <==> exists c | c in s :: !RustBlank(c)
  {
    hide RustBlank;
    if c :| c in s && !RustBlank(c) {
      var i :| 0 <= i < |s| && s[i] == c;
      assert !RustBlank(s[i]);
    }
  }

  /** Each segment counts for itself: it is kept, sanitised, unless it is blank. */
  lemma {:induction false} SafeVisibleConcat(a: seq<string>, b: seq<string>)
    ensures SafeVisible(a + b) == SafeVisible(a) + SafeVisible(b)
  {
    hide Safe, Visible;
    if a == [] {
      assert a + b == b;
    } else {
      assert (a + b)[1..] == a[1..] + b;
      SafeVisibleConcat(a[1..], b);
    }
  }

  /** A segment between others is in its place among the kept ones, sanitised, exactly if it is not blank. */
  lemma SegmentKept(a: seq<string>, x: string, b: seq<string>)
    ensures SafeVisible(a + [x] + b) ==
      SafeVisible(a) + (if exists c | c in x :: !RustBlank(c) then [Safe(x)] else []) + SafeVisible(b)
  {
    hide Safe, RustBlank;
    SafeVisibleConcat(a + [x], b);
    SafeVisibleConcat(a, [x]);
    VisibleIff(x);
    assert [x][1..] == [];
    hide Visible;
  }

  lemma {:induction false} HexTextAt(bytes: seq<Byte>, i: nat)
    requires i < |bytes|
    ensures HexText(bytes)[2 * i] == "0123456789abcdef"[bytes[i] / 16]
    ensures HexText(bytes)[2 * i + 1] == "0123456789abcdef"[bytes[i] % 16]
  {
    hide HexChar, SafeChar, HexDigit;
    var rest := HexText(bytes[1..]);
    assert HexText(bytes) == [HexChar(bytes[0] / 16), HexChar(bytes[0] % 16)] + rest;
    hide HexText;
    if i > 0 {
      HexTextAt(bytes[1..], i - 1);
      assert HexText(bytes)[2 * i] == rest[2 * (i - 1)] && HexText(bytes)[2 * i + 1] == rest[2 * (i - 1) + 1];
    } else {
      HexCharAt(bytes[0] / 16);
      HexCharAt(bytes[0] % 16);
    }
  }

  lemma HexCharAt(n: nat)
    requires n < 16
    ensures HexChar(n) == "0123456789abcdef"[n]
  {
  }

  /** A short hash is the first eight bytes of the digest, in lower-case hexadecimal. */
  lemma ShortHashIs(f: Foreign, s: string, i: nat)
    requires DigestsAreLong(f) && i < 8
    ensures
      var h, b := ShortHash(f, s), f.sha256(s)[i];
      |h| == 16 && h[2 * i] == "0123456789abcdef"[b / 16] && h[2 * i + 1] == "0123456789abcdef"[b % 16]
  {
    var d := f.sha256(s);
    assert |d| == 8 ==> d[..8] == d;
    HexTextAt(d[..8], i);
  }

  lemma SafeHasNoSlash(parts: seq<string>)
    requires forall i | 0 <= i < |parts| :: SafeSegmentText(parts[i])
    ensures Separable(parts, '/')
  {
  }

  /**
   The shape of every event path: split on '/', it is "", "obj", at least two
   object segments, and the sanitised event; every segment after "obj" is safe. The
   object segments are a URL's host and visible segments, with a hash where there are
   none, or just the hash.
   */
  lemma EncodeShape(f: Foreign, obj: string, event: string)
    requires DigestsAreLong(f)
    ensures Split(Encode(f, obj, event), '/') == ["", "obj"] + ObjectSegments(f, obj) + [Safe(event)]
    ensures |ObjectSegments(f, obj)| >= 2 && SafeSegmentText(Safe(event))
    ensures
      var all := ObjectSegments(f, obj);
      if f.parse(obj).None? then all == ["by_hash", ShortHash(f, obj)]
      else
        var kept := SafeVisible(f.parse(obj).value.segments);
        && all[0] == Safe(Lower(f.parse(obj).value.host))
        && all[1..] == if kept == [] then ["by_hash", ShortHash(f, obj)] else kept
    ensures forall i | 0 <= i < |ObjectSegments(f, obj)| :: SafeSegmentText(ObjectSegments(f, obj)[i])
  {
    hide Safe, Scrub, Split, SafeSegmentText, ShortHash, SafeVisible, Lower;
    var middle := ObjectSegments(f, obj);
    assert f.parse(obj).Some? ==> middle == [middle[0]] + middle[1..];
    hide ObjectSegments;
    ObjectSegmentsAreSafe(f, obj);
    SafeSegmentLaws(event);
    var parts := ["", "obj"] + middle + [Safe(event)];
    SafeHasNoSlash(middle);
    SafeHasNoSlash([Safe(event)]);
    SplitJoin(parts, '/');
    JoinConcat(["", "obj"], middle + [Safe(event)], '/');
    JoinConcat(middle, [Safe(event)], '/');
    assert parts == ["", "obj"] + (middle + [Safe(event)]);
    assert Join(["", "obj"], '/') == "/obj" by {
      assert ["", "obj"][1..] == ["obj"];
    }
    assert "/obj" + ['/'] == "/obj/";
    assert Encode(f, obj, event) == Join(parts, '/');
  }

  /** Two requests share an event path only if their sanitised events agree. */
  lemma EncodeDeterminesEvent(f: Foreign, o1: string, e1: string, o2: string, e2: string)
    requires DigestsAreLong(f)
    requires Encode(f, o1, e1) == Encode(f, o2, e2)
    ensures Safe(e1) == Safe(e2) && ObjectSegments(f, o1) == ObjectSegments(f, o2)
  {
    EncodeShape(f, o1, e1);
    EncodeShape(f, o2, e2);
    var a := ["", "obj"] + ObjectSegments(f, o1) + [Safe(e1)];
    var b := ["", "obj"] + ObjectSegments(f, o2) + [Safe(e2)];
    assert a[|a| - 1] == b[|b| - 1];
    assert ObjectSegments(f, o1) == a[2..|a| - 1] == b[2..|b| - 1] == ObjectSegments(f, o2);
  }
}
