/**
 * The string and integer primitives the builder relies on: ASCII lower-casing
 * (`strings.ToLower`), `strings.Join`, `strings.Split`/`bytes.Split` with a
 * one-character separator, decimal formatting (`strconv.Itoa`) and decimal
 * parsing (`strconv.ParseInt`, `strconv.ParseUint`, `strconv.Atoi`), and Go's
 * 64-bit `int` with its wrap-around.
 */
module Text {
  import opened Wrappers

  /** One byte; Go strings are byte strings. */
  type Byte = b: int | 0 <= b < 256

  /** Go's `int` on a 64-bit platform. */
  type Int64 = x: int | -0x8000_0000_0000_0000 <= x < 0x8000_0000_0000_0000

  const TwoTo64: int := 0x1_0000_0000_0000_0000

  /**
   * Go's `+` or `-` on two `int`s: the exact result `x` (which lies within
   * one 2^64 of the 64-bit range) wrapped into the 64-bit range.
   */
  function Wrap64(x: int): (r: Int64)
    requires -TwoTo64 <= x < TwoTo64
    ensures -0x8000_0000_0000_0000 <= x < 0x8000_0000_0000_0000 ==> r == x
    ensures r == x || r == x + TwoTo64 || r == x - TwoTo64
  {
    if x < -0x8000_0000_0000_0000 then x + TwoTo64
    else if x >= 0x8000_0000_0000_0000 then x - TwoTo64
    else x
  }

  /** Stepping forward by `l` and back by `l` in wrapped arithmetic is the identity. */
  lemma {:induction false} Wrap64AddSub(o: Int64, l: Int64)
    ensures Wrap64(Wrap64(o + l) - l) == o
  {
    var w := Wrap64(o + l);
    if w == o + l + TwoTo64 {
      assert w - l == o + TwoTo64;
    } else if w == o + l - TwoTo64 {
      assert w - l == o - TwoTo64;
    }
  }

  // ---------------------------------------------------------------- case

  function LowerChar(c: char): char
  {
    if 'A' <= c <= 'Z' then (c as int + 32) as char else c
  }

  /** `strings.ToLower`, restricted to the ASCII letters. */
  function Lower(s: string): string
  {
    seq(|s|, i requires 0 <= i < |s| => LowerChar(s[i]))
  }

  function LowerAll(names: seq<string>): seq<string>
  {
    seq(|names|, i requires 0 <= i < |names| => Lower(names[i]))
  }

  /** Lower-casing is idempotent, so lower-cased names compare equal to themselves lower-cased. */
  lemma LowerIdempotent(s: string)
    ensures Lower(Lower(s)) == Lower(s)
  {
  }

  // ---------------------------------------------------------------- join / split

  /** `strings.Join(parts, sep)`. */
  function Join(parts: seq<string>, sep: string): string
  {
    if |parts| == 0 then ""
    else if |parts| == 1 then parts[0]
    else parts[0] + sep + Join(parts[1..], sep)
  }

  /** One loop step of a join written in place: the next part goes after one more separator. */
  lemma JoinStep(head: string, parts: seq<string>, i: nat, sep: string)
    requires 1 <= i < |parts|
    ensures head + Join(parts[..i + 1], sep) == head + Join(parts[..i], sep) + (sep + parts[i])
  {
    assert parts[..i + 1] == parts[..i] + [parts[i]];
    JoinSnoc(parts[..i], parts[i], sep);
  }

  /** Appending one part at the end adds one separator. */
  lemma {:induction false} JoinSnoc(parts: seq<string>, x: string, sep: string)
    requires |parts| > 0
    ensures Join(parts + [x], sep) == Join(parts, sep) + sep + x
  {
    if |parts| == 1 {
      assert parts + [x] == [parts[0], x];
      assert ([parts[0], x])[1..] == [x];
    } else {
      assert (parts + [x])[1..] == parts[1..] + [x];
      JoinSnoc(parts[1..], x, sep);
    }
  }

  /** Joining two non-empty lists puts one separator between their joins. */
  lemma {:induction false} JoinAppend(p: seq<string>, q: seq<string>, sep: string)
    requires |p| > 0 && |q| > 0
    ensures Join(p + q, sep) == Join(p, sep) + sep + Join(q, sep)
  {
    if |p| == 1 {
      assert p + q == [p[0]] + q;
      JoinCons(p[0], q, sep);
    } else {
      assert (p + q)[1..] == p[1..] + q;
      JoinAppend(p[1..], q, sep);
    }
  }

  /** `strings.Split(s, sep)` / `bytes.Split(s, sep)` with a one-character separator. */
  function Split(s: string, sep: char): (r: seq<string>)
    ensures |r| >= 1
  {
    if |s| == 0 then [""]
    else
      var rest := Split(s[1..], sep);
      if s[0] == sep then [""] + rest else [[s[0]] + rest[0]] + rest[1..]
  }

  /** A piece with no separator in it comes back whole. */
  lemma {:induction false} SplitNoSep(a: string, sep: char)
    requires sep !in a
    ensures Split(a, sep) == [a]
  {
    if |a| > 0 {
      SplitNoSep(a[1..], sep);
      assert [a[0]] + a[1..] == a;
    }
  }

  /** Splitting `a + sep + b` yields `a` followed by the pieces of `b`. */
  lemma {:induction false} SplitCons(a: string, b: string, sep: char)
    requires sep !in a
    ensures Split(a + [sep] + b, sep) == [a] + Split(b, sep)
  {
    if |a| == 0 {
      assert a + [sep] + b == [sep] + b;
      assert ([sep] + b)[1..] == b;
    } else {
      assert (a + [sep] + b)[1..] == a[1..] + [sep] + b;
      SplitCons(a[1..], b, sep);
      assert [a[0]] + a[1..] == a;
    }
  }

  /** Each part followed by the separator, as a writer emitting terminated records produces. */
  function Terminated(parts: seq<string>, sep: char): string
  {
    if |parts| == 0 then "" else parts[0] + [sep] + Terminated(parts[1..], sep)
  }

  /** Writing one more terminated record extends the text at the end. */
  lemma {:induction false} TerminatedSnoc(parts: seq<string>, x: string, sep: char)
    ensures Terminated(parts + [x], sep) == Terminated(parts, sep) + x + [sep]
  {
    if |parts| == 0 {
      assert [x][1..] == [];
    } else {
      assert (parts + [x])[1..] == parts[1..] + [x];
      TerminatedSnoc(parts[1..], x, sep);
    }
  }

  /** Splitting terminated records gives the records back, plus the empty piece after the last terminator. */
  lemma {:induction false} SplitTerminated(parts: seq<string>, sep: char)
    requires forall i :: 0 <= i < |parts| ==> sep !in parts[i]
    ensures Split(Terminated(parts, sep), sep) == parts + [""]
  {
    if |parts| > 0 {
      SplitTerminated(parts[1..], sep);
      SplitCons(parts[0], Terminated(parts[1..], sep), sep);
      assert parts == [parts[0]] + parts[1..];
    }
  }

  /** Split undoes Join when no part holds the separator. */
  lemma {:induction false} SplitJoin(parts: seq<string>, sep: char)
    requires |parts| > 0
    requires forall i :: 0 <= i < |parts| ==> sep !in parts[i]
    ensures Split(Join(parts, [sep]), sep) == parts
  {
    if |parts| == 1 {
      SplitNoSep(parts[0], sep);
    } else {
      SplitJoin(parts[1..], sep);
      SplitCons(parts[0], Join(parts[1..], [sep]), sep);
      assert [parts[0]] + parts[1..] == parts;
    }
  }

  /** Join undoes Split: no character is lost or added. */
  lemma {:induction false} JoinSplit(s: string, sep: char)
    ensures Join(Split(s, sep), [sep]) == s
  {
    if |s| > 0 {
      JoinSplit(s[1..], sep);
      var rest := Split(s[1..], sep);
      if s[0] == sep {
        JoinCons("", rest, [sep]);
        assert s == [sep] + s[1..];
      } else {
        JoinCons([s[0]] + rest[0], rest[1..], [sep]);
        if |rest| > 1 {
          JoinCons(rest[0], rest[1..], [sep]);
          assert rest == [rest[0]] + rest[1..];
        }
        assert s == [s[0]] + s[1..];
      }
    }
  }

  lemma JoinCons(x: string, rest: seq<string>, sep: string)
    ensures Join([x] + rest, sep) == if |rest| == 0 then x else x + sep + Join(rest, sep)
  {
    assert ([x] + rest)[1..] == rest;
  }

  /** No piece returned by Split holds the separator. */
  lemma {:induction false} SplitPiecesFree(s: string, sep: char)
    ensures forall i :: 0 <= i < |Split(s, sep)| ==> sep !in Split(s, sep)[i]
  {
    if |s| > 0 {
      SplitPiecesFree(s[1..], sep);
      var rest := Split(s[1..], sep);
      var r := Split(s, sep);
      forall i | 0 <= i < |r| ensures sep !in r[i] {
        if s[0] == sep {
          if i > 0 { assert r[i] == rest[i - 1]; }
        } else if i > 0 {
          assert r[i] == rest[i];
        } else {
          assert r[0] == [s[0]] + rest[0];
        }
      }
    }
  }

  // ---------------------------------------------------------------- decimal

  predicate IsDigit(c: char)
  {
    '0' <= c <= '9'
  }

  predicate AllDigits(s: string)
  {
    forall i :: 0 <= i < |s| ==> IsDigit(s[i])
  }

  function DigitChar(d: nat): char
    requires d < 10
  {
    (48 + d) as char
  }

  /** The value of a string of decimal digits, most significant first. */
  function DigitsValue(s: string): nat
    requires AllDigits(s)
  {
    if |s| == 0 then 0
    else DigitsValue(s[..|s| - 1]) * 10 + (s[|s| - 1] as int - 48)
  }

  /** Decimal digits of a natural number, without leading zeros. */
  function NatToString(n: nat): (r: string)
    ensures |r| > 0 && AllDigits(r)
  {
    if n < 10 then [DigitChar(n)] else NatToString(n / 10) + [DigitChar(n % 10)]
  }

  /** `strconv.Itoa` / `%d`. */
  function IntToString(n: int): (r: string)
    ensures |r| > 0
  {
    if n < 0 then "-" + NatToString(-n) else NatToString(n)
  }

  lemma {:induction false} DigitsOfNat(n: nat)
    ensures DigitsValue(NatToString(n)) == n
  {
    if n >= 10 {
      DigitsOfNat(n / 10);
      var s := NatToString(n);
      assert s[..|s| - 1] == NatToString(n / 10);
    }
  }

  /** The bit sizes Go's integer kinds have. */
  type BitSize = b: nat | b == 8 || b == 16 || b == 32 || b == 64 witness 64

  function Pow2(n: nat): (r: nat)
    ensures r >= 1
  {
    if n == 0 then 1 else 2 * Pow2(n - 1)
  }

  /** The exclusive upper bound 2^(bits-1) of a signed integer of `bits` bits. */
  function SignedBound(bits: BitSize): (r: int)
    ensures r > 0
  {
    if bits == 8 then 0x80
    else if bits == 16 then 0x8000
    else if bits == 32 then 0x8000_0000
    else 0x8000_0000_0000_0000
  }

  /** `strconv.ParseInt(s, 10, bits)`: optional sign, at least one digit, value within `bits` bits. */
  function ParseInt(s: string, bits: BitSize): (r: Option<int>)
    ensures r.Some? ==> -SignedBound(bits) <= r.value < SignedBound(bits)
  {
    var neg := |s| > 0 && s[0] == '-';
    var body := if |s| > 0 && (s[0] == '-' || s[0] == '+') then s[1..] else s;
    if |body| == 0 || !AllDigits(body) then None
    else
      var v: int := if neg then 0 - DigitsValue(body) else DigitsValue(body);
      if -SignedBound(bits) <= v < SignedBound(bits) then Some(v) else None
  }

  /** `strconv.ParseUint(s, 10, bits)`: digits only, no sign, value within `bits` bits. */
  function ParseUint(s: string, bits: BitSize): (r: Option<nat>)
    ensures r.Some? ==> r.value < 2 * SignedBound(bits)
  {
    if |s| == 0 || !AllDigits(s) then None
    else
      var v := DigitsValue(s);
      if v < 2 * SignedBound(bits) then Some(v) else None
  }

  /** `strconv.Atoi` on a 64-bit platform. */
  function Atoi(s: string): (r: Option<Int64>)
  {
    match ParseInt(s, 64)
    case None => None
    case Some(v) => Some(v)
  }

  /** Itoa and ParseInt are inverse on every value that fits the bit size. */
  lemma ParseFormat(n: int, bits: BitSize)
    requires -SignedBound(bits) <= n < SignedBound(bits)
    ensures ParseInt(IntToString(n), bits) == Some(n)
  {
    var s := IntToString(n);
    if n < 0 {
      DigitsOfNat(-n);
      assert s[1..] == NatToString(-n);
    } else {
      DigitsOfNat(n);
      assert IsDigit(s[0]);
    }
  }

  /** Decimal formatting and parsing of unsigned values are inverse within the bit size. */
  lemma ParseFormatUint(n: nat, bits: BitSize)
    requires n < 2 * SignedBound(bits)
    ensures ParseUint(NatToString(n), bits) == Some(n)
  {
    DigitsOfNat(n);
  }

  /** Atoi reads back what Itoa wrote, for every 64-bit value. */
  lemma AtoiItoa(n: Int64)
    ensures Atoi(IntToString(n)) == Some(n)
  {
    ParseFormat(n, 64);
  }
}
