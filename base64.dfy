/**
 * Standard base64 (section 4 of RFC 4648), as Go's `base64.StdEncoding` encodes
 * and decodes it: the 64-character alphabet with `+` and `/`, `=` padding that
 * must be present, carriage returns and newlines ignored on decoding, and
 * non-zero unused bits of the last character accepted.
 */
module Base64 {
  import opened Wrappers
  import opened Text

  /** The character for a 6-bit value. */
  function CharOf(v: int): (c: char)
    requires 0 <= v < 64
  {
    if v < 26 then (65 + v) as char
    else if v < 52 then (97 + v - 26) as char
    else if v < 62 then (48 + v - 52) as char
    else if v == 62 then '+'
    else '/'
  }

  /** The 6-bit value of an alphabet character; None for anything else, `=` included. */
  function ValueOf(c: char): (r: Option<int>)
    ensures r.Some? ==> 0 <= r.value < 64 && CharOf(r.value) == c
  {
    if 'A' <= c <= 'Z' then Some(c as int - 65)
    else if 'a' <= c <= 'z' then Some(c as int - 97 + 26)
    else if '0' <= c <= '9' then Some(c as int - 48 + 52)
    else if c == '+' then Some(62)
    else if c == '/' then Some(63)
    else None
  }

  lemma ValueOfChar(v: int)
    requires 0 <= v < 64
    ensures ValueOf(CharOf(v)) == Some(v)
  {
  }

  predicate IsAlphabet(c: char)
  {
    ValueOf(c).Some?
  }

  /** Encodes three bytes, or fewer at the end with `=` padding. */
  function EncodeGroup(d: seq<Byte>): (r: string)
    requires 1 <= |d| <= 3
    ensures |r| == 4
  {
    var b0 := d[0];
    if |d| == 1 then
      [CharOf(b0 / 4), CharOf((b0 % 4) * 16), '=', '=']
    else if |d| == 2 then
      [CharOf(b0 / 4), CharOf((b0 % 4) * 16 + d[1] / 16), CharOf((d[1] % 16) * 4), '=']
    else
      [CharOf(b0 / 4), CharOf((b0 % 4) * 16 + d[1] / 16), CharOf((d[1] % 16) * 4 + d[2] / 64), CharOf(d[2] % 64)]
  }

  /** `base64.StdEncoding.EncodeToString`. */
  function Encode(d: seq<Byte>): (r: string)
    ensures |r| % 4 == 0
    ensures |r| == 0 <==> |d| == 0
    decreases |d|
  {
    if |d| == 0 then ""
    else if |d| <= 3 then EncodeGroup(d)
    else EncodeGroup(d[..3]) + Encode(d[3..])
  }

  /** Decodes one group of four characters; `last` says whether padding may appear. */
  function DecodeGroup(g: string, last: bool): (r: Option<seq<Byte>>)
    requires |g| == 4
    ensures r.Some? ==> 1 <= |r.value| <= 3
    ensures r.Some? && |r.value| < 3 ==> last
  {
    if !IsAlphabet(g[0]) || !IsAlphabet(g[1]) then None
    else
      var v0, v1 := ValueOf(g[0]).value, ValueOf(g[1]).value;
      var b0 := v0 * 4 + v1 / 16;
      if IsAlphabet(g[2]) && IsAlphabet(g[3]) then
        var v2, v3 := ValueOf(g[2]).value, ValueOf(g[3]).value;
        Some([b0, (v1 % 16) * 16 + v2 / 4, (v2 % 4) * 64 + v3])
      else if last && IsAlphabet(g[2]) && g[3] == '=' then
        var v2 := ValueOf(g[2]).value;
        Some([b0, (v1 % 16) * 16 + v2 / 4])
      else if last && g[2] == '=' && g[3] == '=' then
        Some([b0])
      else None
  }

  /** Decodes a string with the line breaks already removed. */
  function DecodeGroups(s: string): (r: Option<seq<Byte>>)
    decreases |s|
  {
    if |s| == 0 then Some([])
    else if |s| < 4 then None
    else
      match DecodeGroup(s[..4], |s| == 4)
      case None => None
      case Some(head) =>
        match DecodeGroups(s[4..])
        case None => None
        case Some(tail) => Some(head + tail)
  }

  /** The string with every carriage return and newline taken out. */
  function StripBreaks(s: string): (r: string)
    ensures forall i :: 0 <= i < |r| ==> r[i] != '\n' && r[i] != '\r'
  {
    if |s| == 0 then ""
    else if s[0] == '\n' || s[0] == '\r' then StripBreaks(s[1..])
    else [s[0]] + StripBreaks(s[1..])
  }

  /** `base64.StdEncoding.DecodeString`: None for a malformed token. */
  function Decode(s: string): Option<seq<Byte>>
  {
    DecodeGroups(StripBreaks(s))
  }

  lemma {:induction false} StripNoBreaks(s: string)
    requires forall i :: 0 <= i < |s| ==> s[i] != '\n' && s[i] != '\r'
    ensures StripBreaks(s) == s
  {
    if |s| > 0 {
      StripNoBreaks(s[1..]);
      assert [s[0]] + s[1..] == s;
    }
  }

  lemma {:induction false} EncodeAlphabet(d: seq<Byte>)
    ensures forall i :: 0 <= i < |Encode(d)| ==> IsAlphabet(Encode(d)[i]) || Encode(d)[i] == '='
    decreases |d|
  {
    if |d| > 3 {
      EncodeAlphabet(d[3..]);
    }
  }

  lemma DecodeEncodeGroup(d: seq<Byte>, last: bool)
    requires 1 <= |d| <= 3
    requires |d| < 3 ==> last
    ensures DecodeGroup(EncodeGroup(d), last) == Some(d)
  {
    if |d| == 1 {
      DecodeEncodeOne(d[0]);
      assert [d[0]] == d;
    } else if |d| == 2 {
      DecodeEncodeTwo(d[0], d[1]);
      assert [d[0], d[1]] == d;
    } else {
      DecodeEncodeThree(d[0], d[1], d[2], last);
      assert [d[0], d[1], d[2]] == d;
    }
  }

  /** A final group of one byte: two characters and two pads. */
  lemma DecodeEncodeOne(b0: Byte)
    ensures DecodeGroup(EncodeGroup([b0]), true) == Some([b0])
  {
    ValueOfChar(b0 / 4);
    ValueOfChar((b0 % 4) * 16);
    assert !IsAlphabet('=');
    assert (b0 / 4) * 4 + ((b0 % 4) * 16) / 16 == b0;
  }

  /** A final group of two bytes: three characters and one pad. */
  lemma DecodeEncodeTwo(b0: Byte, b1: Byte)
    ensures DecodeGroup(EncodeGroup([b0, b1]), true) == Some([b0, b1])
  {
    var v1 := (b0 % 4) * 16 + b1 / 16;
    var v2 := (b1 % 16) * 4;
    ValueOfChar(b0 / 4);
    ValueOfChar(v1);
    ValueOfChar(v2);
    assert !IsAlphabet('=');
    assert (b0 / 4) * 4 + v1 / 16 == b0;
    assert (v1 % 16) * 16 + v2 / 4 == b1;
  }

  /** A full group of three bytes: four characters. */
  lemma DecodeEncodeThree(b0: Byte, b1: Byte, b2: Byte, last: bool)
    ensures DecodeGroup(EncodeGroup([b0, b1, b2]), last) == Some([b0, b1, b2])
  {
    var v1 := (b0 % 4) * 16 + b1 / 16;
    var v2 := (b1 % 16) * 4 + b2 / 64;
    var v3 := b2 % 64;
    ValueOfChar(b0 / 4);
    ValueOfChar(v1);
    ValueOfChar(v2);
    ValueOfChar(v3);
    assert (b0 / 4) * 4 + v1 / 16 == b0;
    assert (v1 % 16) * 16 + v2 / 4 == b1;
    assert (v2 % 4) * 64 + v3 == b2;
  }

  lemma {:induction false} DecodeEncodeGroups(d: seq<Byte>)
    ensures DecodeGroups(Encode(d)) == Some(d)
    decreases |d|
  {
    if 0 < |d| <= 3 {
      DecodeEncodeGroup(d, true);
      assert Encode(d)[..4] == EncodeGroup(d);
      assert Encode(d)[4..] == "";
      assert DecodeGroups("") == Some([]);
      assert d + [] == d;
    } else if |d| > 3 {
      var e := Encode(d);
      assert e[..4] == EncodeGroup(d[..3]);
      assert e[4..] == Encode(d[3..]);
      DecodeEncodeGroup(d[..3], |e| == 4);
      DecodeEncodeGroups(d[3..]);
      assert d[..3] + d[3..] == d;
    }
  }

  /** Decoding undoes encoding: every byte string comes back intact. */
  lemma DecodeEncode(d: seq<Byte>)
    ensures Decode(Encode(d)) == Some(d)
  {
    EncodeAlphabet(d);
    StripNoBreaks(Encode(d));
    DecodeEncodeGroups(d);
  }
}
