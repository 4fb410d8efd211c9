/** Base64 with padding, as in section 4 of RFC 4648, and its inverse. */
module Base64 {
  import opened Prelude

  type Sextet = v: int | 0 <= v < 64 witness 0

  /** The alphabet. */
  function Digit(v: Sextet): (c: char)
    ensures InAlphabet(c) && Value(c) == v
  {
    if v < 26 then 'A' + v as char
    else if v < 52 then 'a' + (v - 26) as char
    else if v < 62 then '0' + (v - 52) as char
    else if v == 62 then '+' else '/'
  }

  predicate InAlphabet(c: char) {
    'A' <= c <= 'Z' || 'a' <= c <= 'z' || '0' <= c <= '9' || c == '+' || c == '/'
  }

  function Value(c: char): Sextet
    requires InAlphabet(c)
  {
    if 'A' <= c <= 'Z' then (c - 'A') as int
    else if 'a' <= c <= 'z' then (c - 'a') as int + 26
    else if '0' <= c <= '9' then (c - '0') as int + 52
    else if c == '+' then 62 else 63
  }

  function Group1(x: Byte): string {
    [Digit(x / 4), Digit(x % 4 * 16), '=', '=']
  }

  function Group2(x: Byte, y: Byte): string {
    [Digit(x / 4), Digit(x % 4 * 16 + y / 16), Digit(y % 16 * 4), '=']
  }

  function Group3(x: Byte, y: Byte, z: Byte): string {
    [Digit(x / 4), Digit(x % 4 * 16 + y / 16), Digit(y % 16 * 4 + z / 64), Digit(z % 64)]
  }

  function Encode(s: seq<Byte>): string {
    if s == [] then ""
    else if |s| == 1 then Group1(s[0])
    else if |s| == 2 then Group2(s[0], s[1])
    else Group3(s[0], s[1], s[2]) + Encode(s[3..])
  }

  /** One group of four characters; only the last group may be padded. */
  function DecodeGroup(g: string, last: bool): Option<seq<Byte>>
    requires |g| == 4
  {
    if !InAlphabet(g[0]) || !InAlphabet(g[1]) then None
    else
      var a, b := Value(g[0]), Value(g[1]);
      if last && g[2] == '=' && g[3] == '=' then
        if b % 16 == 0 then Some([a * 4 + b / 16]) else None
      else if !InAlphabet(g[2]) then None
      else
        var c := Value(g[2]);
        if last && g[3] == '=' then
          if c % 4 == 0 then Some([a * 4 + b / 16, b % 16 * 16 + c / 4]) else None
        else if !InAlphabet(g[3]) then None
        else
          Some([a * 4 + b / 16, b % 16 * 16 + c / 4, c % 4 * 64 + Value(g[3])])
  }

  function Decode(s: string): Option<seq<Byte>> {
    if s == "" then Some([])
    else if |s| < 4 then None
    else
      var group := DecodeGroup(s[..4], |s| == 4);
      if group.None? then None
      else
        var rest := Decode(s[4..]);
        if rest.None? then None else Some(group.value + rest.value)
  }

  // The bits of a byte are split between two sextets and put back together.

  lemma {:induction false} Top(x: Byte, low: int)
    requires 0 <= low < 16
    ensures (x % 4 * 16 + low) / 16 == x % 4 && (x % 4 * 16 + low) % 16 == low
    ensures x / 4 * 4 + x % 4 == x
  {}

  lemma {:induction false} Middle(y: Byte, low: int)
    requires 0 <= low < 4
    ensures (y % 16 * 4 + low) / 4 == y % 16 && (y % 16 * 4 + low) % 4 == low
    ensures y / 16 * 16 + y % 16 == y
  {}

  lemma {:induction false} OneByte(x: Byte)
    ensures DecodeGroup(Group1(x), true) == Some([x])
  {
    Top(x, 0);
  }

  lemma {:induction false} TwoBytes(x: Byte, y: Byte)
    ensures DecodeGroup(Group2(x, y), true) == Some([x, y])
  {
    Top(x, y / 16);
    Middle(y, 0);
  }

  lemma {:induction false} ThreeBytes(x: Byte, y: Byte, z: Byte, last: bool)
    ensures DecodeGroup(Group3(x, y, z), last) == Some([x, y, z])
  {
    Top(x, y / 16);
    Middle(y, z / 64);
    assert z / 64 * 64 + z % 64 == z;
  }

  /** Text that starts with a good group decodes to that group's bytes and what follows. */
  lemma {:induction false} DecodeStep(e: string, g: string, rest: string, bytes: seq<Byte>, s: seq<Byte>)
    requires |g| == 4 && e == g + rest
    requires |bytes| <= |s| && bytes == s[..|bytes|]
    requires DecodeGroup(g, rest == "") == Some(bytes) && Decode(rest) == Some(s[|bytes|..])
    ensures Decode(e) == Some(s)
  {
    assert e[..4] == g && e[4..] == rest;
    assert bytes + s[|bytes|..] == s;
  }

  lemma {:induction false} DecodeOne(s: seq<Byte>)
    requires |s| == 1
    ensures Decode(Encode(s)) == Some(s)
  {
    OneByte(s[0]);
    assert s[1..] == [];
    DecodeStep(Group1(s[0]), Group1(s[0]), "", [s[0]], s);
  }

  lemma {:induction false} DecodeTwo(s: seq<Byte>)
    requires |s| == 2
    ensures Decode(Encode(s)) == Some(s)
  {
    TwoBytes(s[0], s[1]);
    assert s[2..] == [];
    DecodeStep(Group2(s[0], s[1]), Group2(s[0], s[1]), "", [s[0], s[1]], s);
  }

  lemma {:induction false} DecodeThree(s: seq<Byte>, rest: string)
    requires |s| > 2 && Decode(rest) == Some(s[3..])
    ensures Decode(Group3(s[0], s[1], s[2]) + rest) == Some(s)
  {
    var g := Group3(s[0], s[1], s[2]);
    ThreeBytes(s[0], s[1], s[2], rest == "");
    DecodeStep(g + rest, g, rest, [s[0], s[1], s[2]], s);
  }

  lemma {:induction false} DecodeEncode(s: seq<Byte>)
    ensures Decode(Encode(s)) == Some(s)
  {
    if |s| == 1 {
      DecodeOne(s);
    } else if |s| == 2 {
      DecodeTwo(s);
    } else if |s| > 2 {
      DecodeEncode(s[3..]);
      DecodeThree(s, Encode(s[3..]));
    }
  }

  /** What can appear in encoded text. */
  predicate IsBase64Char(c: char) {
    InAlphabet(c) || c == '='
  }

  lemma {:induction false} EncodeChars(s: seq<Byte>, i: nat)
    requires i < |Encode(s)|
    ensures IsBase64Char(Encode(s)[i])
  {
    if |s| > 2 && i >= 4 { EncodeChars(s[3..], i - 4); }
  }

  /** A string with any other character does not decode. */
  lemma {:induction false} DecodeChars(s: string, i: nat)
    requires i < |s| && !IsBase64Char(s[i])
    ensures Decode(s).None?
  {
    if |s| >= 4 {
      if i >= 4 {
        DecodeChars(s[4..], i - 4);
      } else {
        assert s[..4][i] == s[i];
      }
    }
  }

  // What the encoding looks like from outside.

  const UPPER := "ABCDEFGHIJKLMNOPQRSTUVWXYZ"
  const LOWER := "abcdefghijklmnopqrstuvwxyz"
  const OTHER := "0123456789+/"

  /** The digits are those of table 1 of RFC 4648. */
  lemma {:induction false} DigitTable(v: Sextet)
    ensures |UPPER + LOWER + OTHER| == 64 && Digit(v) == (UPPER + LOWER + OTHER)[v]
  {
    if v < 26 { UpperDigit(v); } else if v < 52 { LowerDigit(v); } else { OtherDigit(v); }
  }

  lemma {:induction false} UpperDigit(v: Sextet)
    requires v < 26
    ensures Digit(v) == UPPER[v]
  {}

  lemma {:induction false} LowerDigit(v: Sextet)
    requires 26 <= v < 52
    ensures Digit(v) == LOWER[v - 26]
  {
    var k := v - 26;
    assert LOWER[k] == 'a' + k as char;
  }

  lemma {:induction false} OtherDigit(v: Sextet)
    requires 52 <= v
    ensures Digit(v) == OTHER[v - 52]
  {}

  /** Four digits, most significant first, are the number that three bytes are; a short group is the same
      number with zero bits behind it and padding. */
  lemma {:induction false} GroupNumber(x: Byte, y: Byte, z: Byte)
    ensures var g := Group3(x, y, z);
            ((Value(g[0]) * 64 + Value(g[1])) * 64 + Value(g[2])) * 64 + Value(g[3]) == (x * 256 + y) * 256 + z
    ensures var g := Group2(x, y);
            (Value(g[0]) * 64 + Value(g[1])) * 64 + Value(g[2]) == (x * 256 + y) * 4 && g[3] == '='
    ensures var g := Group1(x);
            Value(g[0]) * 64 + Value(g[1]) == x * 16 && g[2] == '=' && g[3] == '='
  {}
}
