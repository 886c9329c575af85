/**
 Base64 as sections 4 and 5 of RFC 4648 give it: `btoa` and `atob`, the two
 base64url encoders and the decoder built on them, and the compact tokens made
 of their output.
 */
module Base64Url {
  import opened Text

  type Sextet = x: int | 0 <= x < 64

  /** Table 1 of RFC 4648. */
  function Digit(v: Sextet): char {
    if v < 26 then 'A' + v as char
    else if v < 52 then 'a' + (v - 26) as char
    else if v < 62 then '0' + (v - 52) as char
    else if v == 62 then '+' else '/'
  }

  function Value(c: char): Option<Sextet> {
    if 'A' <= c <= 'Z' then Some(c as int - 'A' as int)
    else if 'a' <= c <= 'z' then Some(c as int - 'a' as int + 26)
    else if '0' <= c <= '9' then Some(c as int - '0' as int + 52)
    else if c == '+' then Some(62) else if c == '/' then Some(63) else None
  }

  predicate IsPad(c: char) { c == '=' }

  /** The six-bit groups of three bytes, as digits. */
  function Group(x: Byte, y: Byte, z: Byte): (s: string)
    ensures |s| == 4
  {
    [Digit(x / 4), Digit(x % 4 * 16 + y / 16), Digit(y % 16 * 4 + z / 64), Digit(z % 64)]
  }

  /** `btoa` of the text whose characters are these bytes. */
  function Btoa(b: seq<Byte>): string {
    if |b| == 0 then ""
    else if |b| == 1 then Group(b[0], 0, 0)[..2] + "=="
    else if |b| == 2 then Group(b[0], b[1], 0)[..3] + "="
    else Group(b[0], b[1], b[2]) + Btoa(b[3..])
  }

  /** The first, second and third byte of four digits. */
  function First(v0: Sextet, v1: Sextet): Byte { v0 as int * 4 + v1 / 16 }

  function Second(v1: Sextet, v2: Sextet): Byte { v1 as int % 16 * 16 + v2 / 4 }

  function Third(v2: Sextet, v3: Sextet): Byte { v2 as int % 4 * 64 + v3 }

  /** The bytes that digits stand for; left-over bits are dropped. */
  function Bytes(s: string): Option<seq<Byte>> {
    if |s| == 0 then Some([])
    else if |s| == 1 || Value(s[0]).None? || Value(s[1]).None? then None
    else
      var v0, v1 := Value(s[0]).value, Value(s[1]).value;
      if |s| == 2 then Some([First(v0, v1)])
      else if Value(s[2]).None? then None
      else
        var v2 := Value(s[2]).value;
        if |s| == 3 then Some([First(v0, v1), Second(v1, v2)])
        else if Value(s[3]).None? then None
        else
          var rest := Bytes(s[4..]);
          if rest.None? then None
          else Some([First(v0, v1), Second(v1, v2), Third(v2, Value(s[3]).value)] + rest.value)
  }

  predicate AsciiSpace(c: char) {
    c == '\t' || c == '\n' || c as int == 12 || c == '\r' || c == ' '
  }

  function Drop(s: string, f: char -> bool): string {
    if s == "" then "" else (if f(s[0]) then "" else [s[0]]) + Drop(s[1..], f)
  }

  /** One or two padding characters at the end, when the length allows for them, do not count. */
  function WithoutPadding(s: string): string {
    if |s| % 4 != 0 || s == "" || s[|s| - 1] != '=' then s
    else if s[|s| - 2] != '=' then s[..|s| - 1]
    else s[..|s| - 2]
  }

  /** `atob` */
  function Atob(s: string): Option<seq<Byte>> {
    var t := WithoutPadding(Drop(s, AsciiSpace));
    if |t| % 4 == 1 then None else Bytes(t)
  }

  function UrlChar(c: char): char {
    if c == '+' then '-' else if c == '/' then '_' else c
  }

  function StandardChar(c: char): char {
    if c == '-' then '+' else if c == '_' then '/' else c
  }

  function Map(s: string, f: char -> char): (r: string)
    ensures |r| == |s| && forall i | 0 <= i < |s| :: r[i] == f(s[i])
  {
    seq(|s|, i requires 0 <= i < |s| => f(s[i]))
  }

  /** `base64UrlEncode`: every padding character removed. */
  function UrlEncode(b: seq<Byte>): string {
    Drop(Map(Btoa(b), UrlChar), IsPad)
  }

  /** `base64UrlEncodeBytes`: padding removed at the end. */
  function UrlEncodeBytes(b: seq<Byte>): string {
    StripRight(Map(Btoa(b), UrlChar), IsPad)
  }

  function Pads(n: nat): string {
    seq(n, _ => '=')
  }

  /** `base64UrlDecode` */
  function UrlDecode(s: string): Option<seq<Byte>> {
    var normalized := Map(s, StandardChar);
    Atob(normalized + Pads((4 - |normalized| % 4) % 4))
  }

  // ---- Digits and padding ----

  /** The digits of a byte string, without padding. */
  function Digits(b: seq<Byte>): string {
    if |b| == 0 then ""
    else if |b| == 1 then Group(b[0], 0, 0)[..2]
    else if |b| == 2 then Group(b[0], b[1], 0)[..3]
    else Group(b[0], b[1], b[2]) + Digits(b[3..])
  }

  function PadCount(b: seq<Byte>): nat {
    if |b| == 0 then 0 else if |b| == 1 then 2 else if |b| == 2 then 1 else PadCount(b[3..])
  }

  lemma ValueOfDigit(v: Sextet)
    ensures Value(Digit(v)) == Some(v)
  {
  }

  ghost predicate AllDigits(s: string) {
    forall i | 0 <= i < |s| :: Value(s[i]).Some?
  }

  lemma GroupValues(x: Byte, y: Byte, z: Byte)
    ensures
      var g := Group(x, y, z);
      && Value(g[0]) == Some(x / 4) && Value(g[1]) == Some(x % 4 * 16 + y / 16)
      && Value(g[2]) == Some(y % 16 * 4 + z / 64) && Value(g[3]) == Some(z % 64)
  {
    ValueOfDigit(x / 4);
    ValueOfDigit(x % 4 * 16 + y / 16);
    ValueOfDigit(y % 16 * 4 + z / 64);
    ValueOfDigit(z % 64);
  }

  lemma {:induction false} BtoaIsPadded(b: seq<Byte>)
    ensures Btoa(b) == Digits(b) + Pads(PadCount(b))
  {
    if |b| >= 3 {
      BtoaIsPadded(b[3..]);
    } else {
      assert Pads(1) == "=" && Pads(2) == "==" && Pads(0) == "";
    }
  }

  lemma {:induction false} DigitsAreDigits(b: seq<Byte>)
    ensures AllDigits(Digits(b))
  {
    if |b| >= 3 {
      DigitsAreDigits(b[3..]);
      GroupValues(b[0], b[1], b[2]);
    } else if |b| == 2 {
      GroupValues(b[0], b[1], 0);
    } else if |b| == 1 {
      GroupValues(b[0], 0, 0);
    }
  }

  /** Four digits for three bytes, two for one left over, three for two: never one more than a multiple of four. */
  lemma {:induction false} DigitsLength(b: seq<Byte>)
    ensures |Digits(b)| == |b| / 3 * 4 + (if |b| % 3 == 0 then 0 else |b| % 3 + 1)
    ensures |Digits(b)| % 4 != 1 && (4 - |Digits(b)| % 4) % 4 == PadCount(b) <= 2
  {
    hide Group;
    if |b| >= 3 {
      DigitsLength(b[3..]);
      assert |b| % 3 == |b[3..]| % 3 && |b| / 3 == |b[3..]| / 3 + 1;
    }
  }

  lemma GroupBytes(x: Byte, y: Byte, z: Byte)
    ensures x == First(x / 4, x % 4 * 16 + y / 16)
    ensures y == Second(x % 4 * 16 + y / 16, y % 16 * 4 + z / 64)
    ensures z == Third(y % 16 * 4 + z / 64, z % 64)
  {
  }

  lemma BytesOfGroup(x: Byte, y: Byte, z: Byte, s: string)
    requires Bytes(s).Some?
    ensures Bytes(Group(x, y, z) + s) == Some([x, y, z] + Bytes(s).value)
  {
    hide Digit, Value;
    GroupBytes(x, y, z);
    GroupValues(x, y, z);
    assert (Group(x, y, z) + s)[4..] == s;
  }

  lemma BytesOfOne(x: Byte)
    ensures Bytes(Group(x, 0, 0)[..2]) == Some([x])
  {
    GroupBytes(x, 0, 0);
    GroupValues(x, 0, 0);
    hide Digit, Value, Group, First;
  }

  lemma BytesOfTwo(x: Byte, y: Byte)
    ensures Bytes(Group(x, y, 0)[..3]) == Some([x, y])
  {
    GroupBytes(x, y, 0);
    GroupValues(x, y, 0);
    hide Digit, Value, Group, First, Second;
  }

  /** The digits of a byte string stand for that byte string. */
  lemma {:induction false} BytesOfDigits(b: seq<Byte>)
    ensures Bytes(Digits(b)) == Some(b)
  {
    hide Group, Value;
    if |b| >= 3 {
      BytesOfDigits(b[3..]);
      BytesOfGroup(b[0], b[1], b[2], Digits(b[3..]));
      assert b == [b[0], b[1], b[2]] + b[3..];
    } else if |b| == 2 {
      BytesOfTwo(b[0], b[1]);
      assert b == [b[0], b[1]];
    } else if |b| == 1 {
      BytesOfOne(b[0]);
      assert b == [b[0]];
    }
  }

  // ---- The two encoders ----

  lemma {:induction false} DropNothing(s: string, f: char -> bool)
    requires forall i | 0 <= i < |s| :: !f(s[i])
    ensures Drop(s, f) == s
  {
    if s != "" {
      DropNothing(s[1..], f);
      assert s == [s[0]] + s[1..];
    }
  }

  lemma {:induction false} DropConcat(a: string, b: string, f: char -> bool)
    ensures Drop(a + b, f) == Drop(a, f) + Drop(b, f)
  {
    if a == "" {
      assert a + b == b;
    } else {
      assert (a + b)[1..] == a[1..] + b;
      DropConcat(a[1..], b, f);
    }
  }

  lemma {:induction false} DropPads(n: nat)
    ensures Drop(Pads(n), IsPad) == ""
  {
    if n > 0 {
      assert Pads(n)[1..] == Pads(n - 1);
      DropPads(n - 1);
    }
  }

  lemma {:induction false} StripPads(s: string, n: nat)
    requires s == "" || s[|s| - 1] != '='
    ensures StripRight(s + Pads(n), IsPad) == s
  {
    if n == 0 {
      assert s + Pads(0) == s;
    } else {
      var t := s + Pads(n);
      assert t[..|t| - 1] == s + Pads(n - 1);
      StripPads(s, n - 1);
    }
  }

  lemma UrlOfPadded(s: string, n: nat)
    requires AllDigits(s)
    ensures Map(s + Pads(n), UrlChar) == Map(s, UrlChar) + Pads(n)
    ensures forall i | 0 <= i < |s| :: !IsPad(Map(s, UrlChar)[i]) && UrlSafe(Map(s, UrlChar)[i])
  {
    forall i | 0 <= i < |s| + n ensures Map(s + Pads(n), UrlChar)[i] == (Map(s, UrlChar) + Pads(n))[i] {
      assert i >= |s| ==> (s + Pads(n))[i] == '=';
    }
    forall i | 0 <= i < |s| ensures !IsPad(Map(s, UrlChar)[i]) && UrlSafe(Map(s, UrlChar)[i]) {
      assert Value(s[i]).Some?;
    }
  }

  /** Both encoders give the digits in the url alphabet. */
  lemma EncodersGiveDigits(b: seq<Byte>)
    ensures UrlEncode(b) == Map(Digits(b), UrlChar)
    ensures UrlEncodeBytes(b) == Map(Digits(b), UrlChar)
  {
    var n := PadCount(b);
    var d := Map(Digits(b), UrlChar);
    BtoaIsPadded(b);
    DigitsAreDigits(b);
    UrlOfPadded(Digits(b), n);
    DropConcat(d, Pads(n), IsPad);
    DropPads(n);
    DropNothing(d, IsPad);
    StripPads(d, n);
  }

  /** The url alphabet: letters, digits, '-' and '_'. */
  predicate UrlSafe(c: char) {
    AsciiAlnum(c) || c == '-' || c == '_'
  }

  /** What an encoder gives is safe text of a length that is never one more than a multiple of four. */
  lemma EncodedShape(b: seq<Byte>)
    ensures UrlEncode(b) == UrlEncodeBytes(b)
    ensures forall i | 0 <= i < |UrlEncode(b)| :: UrlSafe(UrlEncode(b)[i])
    ensures |UrlEncode(b)| == |b| / 3 * 4 + (if |b| % 3 == 0 then 0 else |b| % 3 + 1)
    ensures |UrlEncode(b)| % 4 != 1
  {
    EncodersGiveDigits(b);
    DigitsAreDigits(b);
    UrlOfPadded(Digits(b), 0);
    DigitsLength(b);
  }

  // ---- What an encoder writes ----

  /** Table 2 of RFC 4648: the character that stands for each six-bit value. */
  ghost function UrlDigit(v: Sextet): char {
    if v < 26 then ('A' as int + v) as char
    else if v < 52 then ('a' as int + v - 26) as char
    else if v < 62 then ('0' as int + v - 52) as char
    else if v == 62 then '-' else '_'
  }

  ghost function At(b: seq<Byte>, i: nat): Byte {
    if i < |b| then b[i] else 0
  }

  /** The `j`th three bytes as one number, the first byte first. */
  ghost function Word(b: seq<Byte>, j: nat): nat {
    At(b, 3 * j) as int * 65536 + At(b, 3 * j + 1) as int * 256 + At(b, 3 * j + 2)
  }

  /** The six bits that character `i` stands for: its quarter of its word, the highest first. */
  ghost function SixBits(b: seq<Byte>, i: nat): Sextet {
    var w, k := Word(b, i / 4), i % 4;
    if k == 0 then w / 262144 % 64 else if k == 1 then w / 4096 % 64 else if k == 2 then w / 64 % 64 else w % 64
  }

  lemma UrlDigitIs(v: Sextet)
    ensures UrlChar(Digit(v)) == UrlDigit(v)
  {
  }

  lemma Quarters(v0: Sextet, v1: Sextet, v2: Sextet, v3: Sextet)
    ensures
      var w := v0 as int * 262144 + v1 as int * 4096 + v2 as int * 64 + v3;
      w / 262144 % 64 == v0 && w / 4096 % 64 == v1 && w / 64 % 64 == v2 && w % 64 == v3
  {
    var w := v0 as int * 262144 + v1 as int * 4096 + v2 as int * 64 + v3;
    assert w / 64 == v0 as int * 4096 + v1 as int * 64 + v2;
    assert w / 4096 == v0 as int * 64 + v1;
    assert w / 262144 == v0;
  }

  lemma WordSplits(x: Byte, y: Byte, z: Byte)
    ensures
      var w := x as int * 65536 + y as int * 256 + z;
      && w / 262144 % 64 == x / 4 && w / 4096 % 64 == x % 4 * 16 + y / 16
      && w / 64 % 64 == y % 16 * 4 + z / 64 && w % 64 == z % 64
  {
    Quarters(x / 4, x % 4 * 16 + y / 16, y % 16 * 4 + z / 64, z % 64);
  }

  /** The digits of the first word. */
  lemma FirstDigits(b: seq<Byte>, i: nat)
    requires i < 4
    ensures Group(At(b, 0), At(b, 1), At(b, 2))[i] == Digit(SixBits(b, i))
  {
    hide Digit;
    WordSplits(At(b, 0), At(b, 1), At(b, 2));
    assert i / 4 == 0 && i % 4 == i;
    assert Word(b, 0) == At(b, 0) as int * 65536 + At(b, 1) as int * 256 + At(b, 2);
  }

  lemma LaterBits(b: seq<Byte>, i: nat)
    requires |b| >= 3 && i >= 4
    ensures SixBits(b, i) == SixBits(b[3..], i - 4)
  {
    var j := i / 4;
    assert (i - 4) / 4 == j - 1 && (i - 4) % 4 == i % 4;
    assert Word(b[3..], j - 1) == Word(b, j) by {
      assert 3 * (j - 1) + 3 == 3 * j;
    }
  }

  lemma {:induction false} DigitsAt(b: seq<Byte>, i: nat)
    requires i < |Digits(b)|
    ensures Digits(b)[i] == Digit(SixBits(b, i))
  {
    hide Digit, Group, SixBits;
    if i < 4 {
      FirstDigits(b, i);
    } else {
      DigitsAt(b[3..], i - 4);
      LaterBits(b, i);
    }
  }

  /** Every character of the encoded text: six bits of the input, in order, in the url alphabet. */
  lemma EncodedAt(b: seq<Byte>, i: nat)
    requires i < |UrlEncode(b)|
    ensures UrlEncode(b)[i] == UrlDigit(SixBits(b, i))
  {
    hide UrlEncode, Digits, SixBits;
    EncodersGiveDigits(b);
    DigitsAt(b, i);
    UrlDigitIs(SixBits(b, i));
  }

  // ---- The decoder ----

  lemma StandardOfUrl(s: string)
    requires AllDigits(s)
    ensures Map(Map(s, UrlChar), StandardChar) == s
  {
    forall i | 0 <= i < |s| ensures Map(Map(s, UrlChar), StandardChar)[i] == s[i] {
      assert Value(s[i]).Some?;
    }
  }

  lemma NoSpaceInPadded(s: string, n: nat)
    requires AllDigits(s)
    ensures Drop(s + Pads(n), AsciiSpace) == s + Pads(n)
  {
    var t := s + Pads(n);
    forall i | 0 <= i < |t| ensures !AsciiSpace(t[i]) {
      assert i < |s| ==> Value(s[i]).Some?;
    }
    DropNothing(t, AsciiSpace);
  }

  lemma PaddingGoes(s: string, n: nat)
    requires AllDigits(s) && n <= 2 && (|s| + n) % 4 == 0
    ensures WithoutPadding(s + Pads(n)) == s
  {
    var t := s + Pads(n);
    assert s != "" ==> Value(s[|s| - 1]).Some?;
    if n == 0 {
      assert t == s;
    } else {
      assert t[|t| - 1] == '=' && t[..|s|] == s;
    }
  }

  lemma PadArithmetic(k: nat)
    requires k % 4 != 1
    ensures (4 - k % 4) % 4 <= 2 && (k + (4 - k % 4) % 4) % 4 == 0
  {
    var r := k % 4;
    assert r == 0 || r == 2 || r == 3;
  }

  lemma AtobOfPadded(s: string, n: nat)
    requires AllDigits(s) && |s| % 4 != 1 && n <= 2 && (|s| + n) % 4 == 0
    ensures Atob(s + Pads(n)) == Bytes(s)
  {
    NoSpaceInPadded(s, n);
    PaddingGoes(s, n);
  }

  /** The padding that decoding computes is right for digits. */
  lemma DecodeOfDigits(s: string, t: string)
    requires AllDigits(t) && Map(s, StandardChar) == t && |t| % 4 != 1
    ensures UrlDecode(s) == Bytes(t)
  {
    var n := (4 - |t| % 4) % 4;
    PadArithmetic(|t|);
    AtobOfPadded(t, n);
  }

  /** `base64UrlDecode` inverts both encoders. */
  lemma DecodeEncode(b: seq<Byte>)
    ensures UrlDecode(UrlEncode(b)) == Some(b) && UrlDecode(UrlEncodeBytes(b)) == Some(b)
  {
    var s := Digits(b);
    EncodersGiveDigits(b);
    DigitsAreDigits(b);
    StandardOfUrl(s);
    DigitsLength(b);
    DecodeOfDigits(UrlEncode(b), s);
    BytesOfDigits(b);
  }

  lemma {:induction false} BytesDefined(s: string)
    requires AllDigits(s)
    ensures Bytes(s).Some? <==> |s| % 4 != 1
  {
    if |s| >= 4 {
      BytesDefined(s[4..]);
    }
  }

  /** Safe text decodes exactly if its length is not one more than a multiple of four. */
  lemma DecodeDefinedIff(s: string)
    requires forall i | 0 <= i < |s| :: UrlSafe(s[i])
    ensures UrlDecode(s).Some? <==> |s| % 4 != 1
  {
    var t := Map(s, StandardChar);
    forall i | 0 <= i < |t| ensures Value(t[i]).Some? {
      assert t[i] == StandardChar(s[i]);
    }
    if |s| % 4 != 1 {
      DecodeOfDigits(s, t);
      BytesDefined(t);
    } else {
      ThreePads(t);
    }
  }

  lemma {:induction false} BytesOfPad(s: string)
    requires exists i :: 0 <= i < |s| && s[i] == '='
    ensures Bytes(s).None?
  {
    if |s| >= 4 && Bytes(s).Some? {
      assert forall i | 0 <= i < 4 :: s[i] != '=';
      assert exists i :: 0 <= i < |s[4..]| && s[4..][i] == '=' by {
        var i :| 0 <= i < |s| && s[i] == '=';
        assert s[4..][i - 4] == '=';
      }
      BytesOfPad(s[4..]);
    }
  }

  /** Three padding characters are one too many. */
  lemma ThreePads(s: string)
    requires AllDigits(s) && |s| % 4 == 1
    ensures Atob(s + Pads(3)).None?
  {
    var t := s + Pads(3);
    NoSpaceInPadded(s, 3);
    assert t[|s|] == '=';
    assert WithoutPadding(t) == t[..|s| + 1];
    BytesOfPad(t[..|s| + 1]);
  }

  lemma {:induction false} BytesAreDigits(s: string)
    requires Bytes(s).Some?
    ensures AllDigits(s) && |s| % 4 != 1
  {
    if |s| >= 4 {
      BytesAreDigits(s[4..]);
      forall i | 0 <= i < |s| ensures Value(s[i]).Some? {
        assert i >= 4 ==> s[i] == s[4..][i - 4];
      }
    }
  }

  /** As much padding as digits of this number may have. */
  predicate PadFits(digits: nat, pads: nat) {
    (pads == 0 && digits % 4 != 1) || (1 <= pads <= 2 && (digits + pads) % 4 == 0)
  }

  /** The text, its white space aside, is digits and padding. */
  ghost predicate Spelt(s: string, digits: string, pads: nat) {
    Drop(s, AsciiSpace) == digits + Pads(pads) && AllDigits(digits) && PadFits(|digits|, pads)
  }

  /** `atob`, on all texts: white space aside, digits with no padding or with just enough; and what they stand for. */
  lemma AtobIff(s: string, b: seq<Byte>)
    ensures Atob(s) == Some(b) <==> exists digits, pads :: Spelt(s, digits, pads) && Bytes(digits) == Some(b)
  {
    hide Value, Bytes, Drop;
    var t := Drop(s, AsciiSpace);
    if Atob(s) == Some(b) {
      var d := WithoutPadding(t);
      BytesAreDigits(d);
      PaddingIs(t, d);
      var pads: nat :| t == d + Pads(pads) && PadFits(|d|, pads);
      assert Spelt(s, d, pads);
    }
    if digits, pads :| Spelt(s, digits, pads) && Bytes(digits) == Some(b) {
      if |t| % 4 == 0 {
        PaddingGoes(digits, pads);
      } else {
        assert t == digits;
      }
    }
  }

  lemma PaddingIs(t: string, d: string)
    requires d == WithoutPadding(t) && AllDigits(d) && |d| % 4 != 1
    ensures exists pads: nat :: t == d + Pads(pads) && PadFits(|d|, pads)
  {
    var n := |t| - |d|;
    assert t == d + Pads(n);
    assert PadFits(|d|, n);
  }

  // ---- Encoding what was decoded ----

  /** The bits of the last digit that no byte holds. */
  function SpareBits(s: string): nat {
    if s == "" || Value(s[|s| - 1]).None? then 0
    else if |s| % 4 == 2 then Value(s[|s| - 1]).value % 16
    else if |s| % 4 == 3 then Value(s[|s| - 1]).value % 4
    else 0
  }

  lemma DigitOfValue(c: char)
    requires Value(c).Some?
    ensures Digit(Value(c).value) == c
  {
  }

  lemma Regroup(v0: Sextet, v1: Sextet, v2: Sextet, v3: Sextet)
    ensures Group(First(v0, v1), Second(v1, v2), Third(v2, v3)) == [Digit(v0), Digit(v1), Digit(v2), Digit(v3)]
  {
    var x, y, z := First(v0, v1), Second(v1, v2), Third(v2, v3);
    assert x / 4 == v0 && x % 4 == v1 / 16 && y / 16 == v1 % 16 && y % 16 == v2 / 4;
    assert z / 64 == v2 % 4 && z % 64 == v3;
  }

  lemma RegroupPart(v0: Sextet, v1: Sextet, v2: Sextet)
    ensures Group(First(v0, v1), 0, 0)[..2] == [Digit(v0), Digit(v1 / 16 * 16)]
    ensures Group(First(v0, v1), Second(v1, v2), 0)[..3] == [Digit(v0), Digit(v1), Digit(v2 / 4 * 4)]
  {
    var x, y := First(v0, v1), Second(v1, v2);
    assert x / 4 == v0 && x % 4 == v1 / 16 && y / 16 == v1 % 16 && y % 16 == v2 / 4;
  }

  lemma DigitsDiffer(v: Sextet, w: Sextet)
    ensures Digit(v) == Digit(w) <==> v == w
  {
    ValueOfDigit(v);
    ValueOfDigit(w);
  }

  lemma TwoDigits(t: string)
    requires AllDigits(t) && |t| == 2
    ensures Digits(Bytes(t).value) == t <==> SpareBits(t) == 0
  {
    hide Digit, Value, Group, First, Second;
    var v0, v1 := Value(t[0]).value, Value(t[1]).value;
    DigitOfValue(t[0]);
    DigitOfValue(t[1]);
    RegroupPart(v0, v1, 0);
    DigitsDiffer(v1 / 16 * 16, v1);
    assert Bytes(t).value == [First(v0, v1)];
    assert Digits(Bytes(t).value) == [t[0], Digit(v1 / 16 * 16)];
    assert t == [t[0], t[1]];
  }

  lemma ThreeDigits(t: string)
    requires AllDigits(t) && |t| == 3
    ensures Digits(Bytes(t).value) == t <==> SpareBits(t) == 0
  {
    hide Digit, Value, Group, First, Second;
    var v0, v1, v2 := Value(t[0]).value, Value(t[1]).value, Value(t[2]).value;
    DigitOfValue(t[0]);
    DigitOfValue(t[1]);
    DigitOfValue(t[2]);
    RegroupPart(v0, v1, v2);
    DigitsDiffer(v2 / 4 * 4, v2);
    assert Bytes(t).value == [First(v0, v1), Second(v1, v2)];
    assert Digits(Bytes(t).value) == [t[0], t[1], Digit(v2 / 4 * 4)];
    assert t == [t[0], t[1], t[2]];
  }

  lemma DigitsOfThree(x: Byte, y: Byte, z: Byte, rest: seq<Byte>)
    ensures Digits([x, y, z] + rest) == Group(x, y, z) + Digits(rest)
  {
    assert ([x, y, z] + rest)[3..] == rest;
  }

  lemma FirstFour(t: string)
    requires AllDigits(t) && |t| >= 4
    ensures
      var v0, v1, v2, v3 := Value(t[0]).value, Value(t[1]).value, Value(t[2]).value, Value(t[3]).value;
      Group(First(v0, v1), Second(v1, v2), Third(v2, v3)) == t[..4]
  {
    hide Digit, Value, Group, First, Second, Third;
    DigitOfValue(t[0]);
    DigitOfValue(t[1]);
    DigitOfValue(t[2]);
    DigitOfValue(t[3]);
    Regroup(Value(t[0]).value, Value(t[1]).value, Value(t[2]).value, Value(t[3]).value);
    assert t[..4] == [t[0], t[1], t[2], t[3]];
  }

  lemma FourDigits(t: string)
    requires AllDigits(t) && |t| >= 4 && Bytes(t[4..]).Some?
    ensures Bytes(t).Some? && Digits(Bytes(t).value) == t[..4] + Digits(Bytes(t[4..]).value)
  {
    hide Digit, Value, Group, Digits, First, Second, Third;
    var v0, v1, v2, v3 := Value(t[0]).value, Value(t[1]).value, Value(t[2]).value, Value(t[3]).value;
    FirstFour(t);
    DigitsOfThree(First(v0, v1), Second(v1, v2), Third(v2, v3), Bytes(t[4..]).value);
  }

  lemma {:induction false} DigitsOfBytes(t: string)
    requires AllDigits(t) && |t| % 4 != 1
    ensures Bytes(t).Some? && (Digits(Bytes(t).value) == t <==> SpareBits(t) == 0)
  {
    hide Digits, Value, Bytes;
    BytesDefined(t);
    if t == "" {
      NoDigits();
    } else if |t| == 2 {
      TwoDigits(t);
    } else if |t| == 3 {
      ThreeDigits(t);
    } else {
      DigitsOfBytes(t[4..]);
      FourDigits(t);
      SpareOfRest(t);
      var d := Digits(Bytes(t[4..]).value);
      assert t == t[..4] + t[4..];
      assert (t[..4] + d)[4..] == d;
    }
  }

  lemma NoDigits()
    ensures Bytes("") == Some([]) && Digits([]) == ""
  {
  }

  lemma SpareOfRest(t: string)
    requires |t| >= 4 && |t| % 4 != 1
    ensures SpareBits(t) == SpareBits(t[4..])
  {
    hide Value;
    assert |t[4..]| % 4 == |t| % 4;
    assert t[4..] != "" ==> t[4..][|t[4..]| - 1] == t[|t| - 1];
  }

  /** Url-safe text is what its bytes encode to exactly if its last digit holds no spare bits. */
  lemma EncodeDecodeIff(s: string)
    requires (forall i | 0 <= i < |s| :: UrlSafe(s[i])) && |s| % 4 != 1
    ensures UrlDecode(s).Some?
    ensures UrlEncode(UrlDecode(s).value) == s <==> SpareBits(Map(s, StandardChar)) == 0
  {
    var t := Map(s, StandardChar);
    StandardIsDigits(s);
    DecodeOfDigits(s, t);
    DigitsOfBytes(t);
    var b := Bytes(t).value;
    EncodersGiveDigits(b);
    DigitsAreDigits(b);
    StandardOfUrl(Digits(b));
    hide Digits, Bytes, SpareBits, UrlDecode, UrlEncode;
    if UrlEncode(b) == s {
      assert Digits(b) == t;
    }
  }

  lemma StandardIsDigits(s: string)
    requires forall i | 0 <= i < |s| :: UrlSafe(s[i])
    ensures AllDigits(Map(s, StandardChar)) && Map(Map(s, StandardChar), UrlChar) == s
  {
    var t := Map(s, StandardChar);
    forall i | 0 <= i < |s| ensures Value(t[i]).Some? && UrlChar(t[i]) == s[i] {
      assert UrlSafe(s[i]);
    }
  }

  // ---- The encoder as a loop ----

  predicate Latin(raw: string) {
    forall i | 0 <= i < |raw| :: raw[i] as int < 256
  }

  function Codes(raw: string): seq<Byte>
    requires Latin(raw)
  {
    seq(|raw|, i requires 0 <= i < |raw| => raw[i] as int)
  }

  /** `base64UrlEncode` with its loop: one character per byte, then `btoa`, which takes no wider character. */
  method EncodeText(input: seq<Byte>) returns (s: string)
    ensures s == UrlEncode(input) && UrlDecode(s) == Some(input)
  {
    var raw: string := "";
    for i := 0 to |input|
      invariant Latin(raw) && Codes(raw) == input[..i]
    {
      raw := raw + [input[i] as char];
      assert Codes(raw) == Codes(raw[..i]) + [input[i]];
      assert raw[..i] == raw[..|raw| - 1];
    }
    assert Codes(raw) == input;
    DecodeEncode(input);
    return Drop(Map(Btoa(Codes(raw)), UrlChar), IsPad);
  }

  // ---- Compact tokens ----

  /** Header, payload and signature, encoded and joined by dots. */
  function Token(encode: seq<Byte> -> string, header: seq<Byte>, payload: seq<Byte>, signature: seq<Byte>): string {
    encode(header) + "." + encode(payload) + "." + encode(signature)
  }

  /** `decodeJwtPayload` up to the bytes: the second of at least two parts, decoded. */
  function PayloadOf(token: string): Option<seq<Byte>> {
    var parts := Split(token, '.');
    if |parts| < 2 then None else UrlDecode(parts[1])
  }

  /** The payload is the second part, whatever the others are; a text without a dot has none. */
  lemma PayloadIsSecond(parts: seq<string>)
    requires parts != [] && Separable(parts, '.')
    ensures PayloadOf(Join(parts, '.')) == if |parts| < 2 then None else UrlDecode(parts[1])
  {
    SplitJoin(parts, '.');
  }

  lemma SplitThree(a: string, b: string, c: string)
    requires '.' !in a && '.' !in b && '.' !in c
    ensures Split(a + "." + b + "." + c, '.') == [a, b, c]
  {
    assert a + "." + b + "." + c == a + ['.'] + (b + ['.'] + c);
    SplitConcat(a, b + ['.'] + c, '.');
    SplitConcat(b, c, '.');
    SplitPlain(a, '.');
    SplitPlain(b, '.');
    SplitPlain(c, '.');
  }

  /** A token, by either encoder, has exactly three parts, and decoding gives its payload back. */
  lemma TokenRoundTrip(header: seq<Byte>, payload: seq<Byte>, signature: seq<Byte>)
    ensures
      var token := Token(UrlEncode, header, payload, signature);
      && Token(UrlEncodeBytes, header, payload, signature) == token
      && Split(token, '.') == [UrlEncode(header), UrlEncode(payload), UrlEncode(signature)]
      && PayloadOf(token) == Some(payload)
  {
    hide UrlEncode, UrlEncodeBytes, UrlDecode;
    EncodedShape(header);
    EncodedShape(payload);
    EncodedShape(signature);
    SplitThree(UrlEncode(header), UrlEncode(payload), UrlEncode(signature));
    DecodeEncode(payload);
  }
}
