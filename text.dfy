/** Strings as the Python code builds and takes them apart: lower-casing,
    decimal rendering and parsing of integers, `sep.join(parts)` and
    `s.split(sep)`, and the fixed-point decimal rendering and rounding that
    `f"{x:.6f}"` and `round(x, 4)` perform. Reals are exact here, so rounding is
    written out on reals; the binary floating-point details are not modelled. */
module Text {
  import opened Wrappers

  // ---------------------------------------------------------------- case

  /** Python's lower-case mapping of one character, on the ranges where it
      is one character to one: ASCII, Latin-1 (À..Þ but not ×), Latin
      Extended-A (capitals paired with the next code point, Ÿ with ÿ; İ,
      which lowers to two characters, is left alone) and the basic Cyrillic
      capitals. */
  function LowerChar(c: char): char {
    var n := c as int;
    if 'A' <= c <= 'Z' then (n + 32) as char
    else if 0xC0 <= n <= 0xDE && n != 0xD7 then (n + 32) as char
    else if (0x100 <= n <= 0x12F || 0x132 <= n <= 0x137 || 0x14A <= n <= 0x177) && n % 2 == 0 then (n + 1) as char
    else if (0x139 <= n <= 0x148 || 0x179 <= n <= 0x17E) && n % 2 == 1 then (n + 1) as char
    else if n == 0x178 then 0xFF as char
    else if 0x400 <= n <= 0x40F then (n + 80) as char
    else if 0x410 <= n <= 0x42F then (n + 32) as char
    else c
  }

  /** `s.lower()`, character by character. */
  function Lower(s: string): (r: string)
    ensures |r| == |s|
    ensures forall i :: 0 <= i < |s| ==> r[i] == LowerChar(s[i])
  {
    seq(|s|, i requires 0 <= i < |s| => LowerChar(s[i]))
  }

  /** A label with German capital umlauts lower-cases to the defaults key
      written in lower case. */
  lemma LowerExamples()
    ensures Lower("Ölkessel") == "ölkessel"
    ensures Lower("ÄÜ-Wärme") == "äü-wärme"
  {
  }

  /** Lower-casing is idempotent. */
  lemma LowerIdempotent(s: string)
    ensures Lower(Lower(s)) == Lower(s)
  {
  }

  // ---------------------------------------------------------------- integers

  predicate IsDigit(c: char) {
    '0' <= c <= '9'
  }

  predicate AllDigits(s: string) {
    forall i :: 0 <= i < |s| ==> IsDigit(s[i])
  }

  function DigitChar(d: nat): (c: char)
    requires d < 10
    ensures IsDigit(c) && c as int - '0' as int == d
  {
    ('0' as int + d) as char
  }

  /** `str(n)` for a natural number. */
  function NatToString(n: nat): (s: string)
    ensures |s| > 0 && AllDigits(s)
    decreases n
  {
    if n < 10 then [DigitChar(n)] else NatToString(n / 10) + [DigitChar(n % 10)]
  }

  /** `str(i)` for an integer. */
  function IntToString(i: int): (s: string)
    ensures |s| > 0
    ensures i >= 0 ==> AllDigits(s)
    ensures i < 0 ==> s[0] == '-'
  {
    if i < 0 then "-" + NatToString(-i) else NatToString(i)
  }

  function DigitsValue(s: string): nat
    requires AllDigits(s)
  {
    if s == [] then 0
    else DigitsValue(s[..|s| - 1]) * 10 + (s[|s| - 1] as int - '0' as int)
  }

  /** `int(s)` on an optional minus sign followed by ASCII decimal digits;
      every other string is `None`. Python's `int` also accepts a plus sign,
      surrounding blanks, underscores between digits and non-ASCII digits;
      the column labels written by the model never contain those. */
  function ParseInt(s: string): Option<int> {
    if |s| > 0 && AllDigits(s) then Some(DigitsValue(s))
    else if |s| > 1 && s[0] == '-' && AllDigits(s[1..]) then Some(-(DigitsValue(s[1..]) as int))
    else None
  }

  lemma {:induction false} DigitsValueOfNat(n: nat)
    ensures DigitsValue(NatToString(n)) == n
    decreases n
  {
    if n >= 10 {
      var s := NatToString(n);
      assert s[..|s| - 1] == NatToString(n / 10);
      DigitsValueOfNat(n / 10);
    }
  }

  /** Rendering an integer and parsing it back gives the integer again. */
  lemma ParseIntOfString(i: int)
    ensures ParseInt(IntToString(i)) == Some(i)
  {
    if i < 0 {
      var s := IntToString(i);
      assert s[1..] == NatToString(-i);
      DigitsValueOfNat(-i);
    } else {
      DigitsValueOfNat(i);
    }
  }

  // ---------------------------------------------------------------- join and split

  /** `sep.join(parts)`. */
  function Join(sep: string, parts: seq<string>): string {
    if |parts| == 0 then ""
    else if |parts| == 1 then parts[0]
    else parts[0] + sep + Join(sep, parts[1..])
  }

  /** `s.split(c)`: every occurrence of `c` separates two parts, so the result
      is never empty and adjacent separators give empty parts. */
  function Split(s: string, c: char): (parts: seq<string>)
    ensures |parts| >= 1
  {
    if s == [] then [""]
    else if s[0] == c then [""] + Split(s[1..], c)
    else
      var rest := Split(s[1..], c);
      [[s[0]] + rest[0]] + rest[1..]
  }

  predicate Free(s: string, c: char) {
    forall i :: 0 <= i < |s| ==> s[i] != c
  }

  lemma FreeAppend(a: string, b: string, c: char)
    requires Free(a, c) && Free(b, c)
    ensures Free(a + b, c)
  {
    forall i | 0 <= i < |a + b|
      ensures (a + b)[i] != c
    {
      if i < |a| {
        assert (a + b)[i] == a[i];
      } else {
        assert (a + b)[i] == b[i - |a|];
      }
    }
  }

  lemma {:induction false} SplitFree(a: string, c: char)
    requires Free(a, c)
    ensures Split(a, c) == [a]
  {
    if a != [] {
      SplitFree(a[1..], c);
      assert [a[0]] + a[1..] == a;
    }
  }

  lemma {:induction false} SplitAfterPart(a: string, c: char, b: string)
    requires Free(a, c)
    ensures Split(a + [c] + b, c) == [a] + Split(b, c)
  {
    if a == [] {
      assert a + [c] + b == [c] + b;
      assert ([c] + b)[1..] == b;
    } else {
      var s := a + [c] + b;
      assert s[1..] == a[1..] + [c] + b;
      SplitAfterPart(a[1..], c, b);
      assert [a[0]] + a[1..] == a;
    }
  }

  /** Splitting what was joined with a single separator character gives the
      parts back, provided no part contains that character. */
  lemma {:induction false} SplitJoin(parts: seq<string>, c: char)
    requires |parts| >= 1
    requires forall i :: 0 <= i < |parts| ==> Free(parts[i], c)
    ensures Split(Join([c], parts), c) == parts
  {
    if |parts| == 1 {
      SplitFree(parts[0], c);
    } else {
      SplitJoin(parts[1..], c);
      SplitAfterPart(parts[0], c, Join([c], parts[1..]));
      assert [parts[0]] + parts[1..] == parts;
    }
  }

  // ---------------------------------------------------------------- lines

  /** The text of `lines`, each one followed by a newline. */
  function Unlines(lines: seq<string>): string {
    if lines == [] then "" else lines[0] + "\n" + Unlines(lines[1..])
  }

  lemma {:induction false} UnlinesAppend(a: seq<string>, b: seq<string>)
    ensures Unlines(a + b) == Unlines(a) + Unlines(b)
  {
    if a == [] {
      assert a + b == b;
    } else {
      assert (a + b)[0] == a[0];
      assert (a + b)[1..] == a[1..] + b;
      UnlinesAppend(a[1..], b);
      calc {
        Unlines(a + b);
        a[0] + "\n" + Unlines(a[1..] + b);
        a[0] + "\n" + (Unlines(a[1..]) + Unlines(b));
        (a[0] + "\n" + Unlines(a[1..])) + Unlines(b);
      }
    }
  }

  lemma UnlinesSnoc(lines: seq<string>, x: string)
    ensures Unlines(lines + [x]) == Unlines(lines) + x + "\n"
  {
    UnlinesAppend(lines, [x]);
    assert Unlines([x]) == x + "\n" + Unlines([]);
  }

  /** Text written line by line is read back line by line: splitting it at
      the newlines gives the lines and an empty last part. */
  lemma {:induction false} SplitUnlines(lines: seq<string>)
    requires forall i :: 0 <= i < |lines| ==> Free(lines[i], '\n')
    ensures Split(Unlines(lines), '\n') == lines + [""]
  {
    if lines == [] {
    } else {
      SplitUnlines(lines[1..]);
      SplitAfterPart(lines[0], '\n', Unlines(lines[1..]));
      assert lines[0] + "\n" + Unlines(lines[1..]) == lines[0] + ['\n'] + Unlines(lines[1..]);
      assert [lines[0]] + (lines[1..] + [""]) == lines + [""];
    }
  }

  // ---------------------------------------------------------------- decimals

  function Abs(x: real): real {
    if x < 0.0 then -x else x
  }

  /** `x` rounded to the nearest multiple of `1/scale`, halves away from zero. */
  function RoundAt(x: real, scale: real): real
    requires scale > 0.0
  {
    if x < 0.0 then -RoundedMagnitude(Abs(x), scale) else RoundedMagnitude(Abs(x), scale)
  }

  function RoundedMagnitude(a: real, scale: real): real
    requires scale > 0.0
  {
    (a * scale + 0.5).Floor as real / scale
  }

  /** The value of `f"{x:.6f}"` read back by `float(...)`. */
  function Round6(x: real): (r: real)
    ensures Abs(r - x) <= 0.0000005
  {
    RoundAt(x, 1000000.0)
  }

  /** `round(x, 4)`. */
  function Round4(x: real): (r: real)
    ensures Abs(r - x) <= 0.00005
  {
    RoundAt(x, 10000.0)
  }

  function PadLeft(s: string, width: nat): (r: string)
    ensures |r| == if |s| < width then width else |s|
  {
    if |s| < width then seq(width - |s|, _ => '0') + s else s
  }

  /** `f"{x:.6f}"`: sign, integer part, a point and exactly six decimals. */
  function Fixed6(x: real): string {
    var k := (Abs(x) * 1000000.0 + 0.5).Floor;
    assert k >= 0;
    (if x < 0.0 then "-" else "") + NatToString(k / 1000000) + "." + PadLeft(NatToString(k % 1000000), 6)
  }

  /** The text of `f"{x:.6f}"` is made of digits, a point and perhaps a
      minus sign, so it holds no space and no newline. */
  lemma Fixed6Chars(x: real)
    ensures forall i :: 0 <= i < |Fixed6(x)| ==> IsDigit(Fixed6(x)[i]) || Fixed6(x)[i] == '-' || Fixed6(x)[i] == '.'
  {
    var k := (Abs(x) * 1000000.0 + 0.5).Floor;
    var frac := NatToString(k % 1000000);
    var padded := PadLeft(frac, 6);
    assert forall i :: 0 <= i < |padded| ==> IsDigit(padded[i]);
  }

  /** Zero is written as `0.000000`, the text used for a missing table cell. */
  lemma Fixed6OfZero()
    ensures Fixed6(0.0) == "0.000000"
  {
    assert (Abs(0.0) * 1000000.0 + 0.5).Floor == 0;
    assert NatToString(0) == "0";
    assert PadLeft("0", 6) == "000000";
  }
}
