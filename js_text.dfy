/** The few ECMAScript string operations the extension relies on:
    `String.prototype.trim`, `startsWith`, `substring` and `parseInt`.
    A Dafny `string` is a sequence of Unicode characters; where the source
    counts UTF-16 code units (`substring`), the text is first encoded. */
module JsText {
  import opened Wrappers

  /** The characters ECMAScript treats as white space or line terminators
      (`WhiteSpace` and `LineTerminator`): what `trim` strips and what the
      regular-expression class `\s` matches. */
  predicate IsJsSpace(c: char)
  {
    var n := c as int;
    n == 0x09 || n == 0x0A || n == 0x0B || n == 0x0C || n == 0x0D || n == 0x20 ||
    n == 0xA0 || n == 0x1680 || (0x2000 <= n <= 0x200A) || n == 0x2028 || n == 0x2029 ||
    n == 0x202F || n == 0x205F || n == 0x3000 || n == 0xFEFF
  }

  /** Every character of `s` is white space (this includes the empty string). */
  predicate IsBlank(s: string)
  {
    forall i :: 0 <= i < |s| ==> IsJsSpace(s[i])
  }

  /** Drops the leading white space. */
  function TrimStart(s: string): (r: string)
    ensures |r| <= |s|
  {
    if s != [] && IsJsSpace(s[0]) then TrimStart(s[1..]) else s
  }

  /** What is dropped is white space and what remains is a suffix that does
      not start with any. */
  lemma {:induction false} TrimStartSpec(s: string)
    ensures var r := TrimStart(s);
      r == s[|s| - |r|..] && (r == [] || !IsJsSpace(r[0])) && IsBlank(s[..|s| - |r|])
  {
    if s != [] && IsJsSpace(s[0]) {
      var r := TrimStart(s[1..]);
      TrimStartSpec(s[1..]);
      assert r == s[1..][|s[1..]| - |r|..] == s[|s| - |r|..];
      assert s[..|s| - |r|] == [s[0]] + s[1..][..|s[1..]| - |r|];
    }
  }

  /** Drops the trailing white space. */
  function TrimEnd(s: string): (r: string)
    ensures |r| <= |s| && r == s[..|r|]
    ensures r == [] || !IsJsSpace(r[|r| - 1])
    ensures IsBlank(s[|r|..])
  {
    if s != [] && IsJsSpace(s[|s| - 1]) then
      var r := TrimEnd(s[..|s| - 1]);
      assert s[|r|..] == s[..|s| - 1][|r|..] + [s[|s| - 1]];
      r
    else s
  }

  /** `s.trim()`. */
  function Trim(s: string): (r: string)
    ensures |r| <= |s|
  {
    TrimEnd(TrimStart(s))
  }

  /** The form checks `!s.trim()`: the trimmed text is empty exactly when the
      text consists of white space only. */
  lemma TrimEmptyIffBlank(s: string)
    ensures Trim(s) == "" <==> IsBlank(s)
  {
    var t := TrimStart(s);
    TrimStartSpec(s);
    if Trim(s) != "" {
      var r := Trim(s);
      assert !IsJsSpace(r[0]);
      assert r[0] == t[0];
      assert t[0] == s[|s| - |t|];
    }
  }

  /** Trimming twice is trimming once. */
  lemma TrimIdempotent(s: string)
    ensures Trim(Trim(s)) == Trim(s)
  {
    var r := Trim(s);
    TrimStartSpec(s);
    if r != [] {
      assert r[0] == TrimStart(s)[0];
      assert TrimStart(r) == r;
    }
  }

  /** `s.startsWith(p)`. */
  predicate StartsWith(s: string, p: string)
  {
    |p| <= |s| && s[..|p|] == p
  }

  // ---------------------------------------------------------------------
  // UTF-16

  /** A UTF-16 code unit. An ECMAScript string is a sequence of these, and
      `substring` counts them. */
  type CodeUnit = n: int | 0 <= n < 0x1_0000

  predicate IsSurrogate(u: CodeUnit)
  {
    0xD800 <= u < 0xE000
  }

  /** The UTF-16 encoding of one character: the character itself in the
      Basic Multilingual Plane, a surrogate pair above it. */
  function CharUnits(c: char): (r: seq<CodeUnit>)
    ensures c as int < 0x1_0000 ==> r == [c as int] && !IsSurrogate(r[0])
    ensures c as int >= 0x1_0000 ==> |r| == 2 && IsSurrogate(r[0]) && IsSurrogate(r[1])
  {
    var n := c as int;
    if n < 0x1_0000 then [n]
    else
      var v := n - 0x1_0000;
      [0xD800 + v / 0x400, 0xDC00 + v % 0x400]
  }

  /** The code units of a string, character by character. */
  function Utf16(s: string): (r: seq<CodeUnit>)
    ensures |r| >= |s|
  {
    if s == [] then [] else CharUnits(s[0]) + Utf16(s[1..])
  }

  lemma {:induction false} Utf16Append(a: string, b: string)
    ensures Utf16(a + b) == Utf16(a) + Utf16(b)
  {
    if a == [] {
      assert a + b == b;
    } else {
      assert (a + b)[0] == a[0] && (a + b)[1..] == a[1..] + b;
      Utf16Append(a[1..], b);
    }
  }

  /** Every character lies in the Basic Multilingual Plane. */
  predicate IsBmp(s: string)
  {
    forall i :: 0 <= i < |s| ==> s[i] as int < 0x1_0000
  }

  /** The character a code unit stands for when `parseInt` reads it: a
      surrogate, paired or lone, is U+FFFD. `parseInt` only looks for white
      space, signs, `0x` and digits, which are all single units outside the
      surrogate range, so it reads a surrogate as it reads U+FFFD. */
  function UnitChar(u: CodeUnit): char
  {
    if IsSurrogate(u) then '\U{FFFD}' else u as char
  }

  /** Code units as the text `parseInt` reads. */
  function UnitsText(u: seq<CodeUnit>): (r: string)
    ensures |r| == |u|
    ensures forall i :: 0 <= i < |u| ==> r[i] == UnitChar(u[i])
  {
    seq(|u|, i requires 0 <= i < |u| => UnitChar(u[i]))
  }

  /** In the Basic Multilingual Plane a string has one code unit per
      character, and reading its units back gives the string again. */
  lemma {:induction false} BmpUnits(s: string)
    requires IsBmp(s)
    ensures |Utf16(s)| == |s|
    ensures forall i :: 0 <= i < |s| ==> Utf16(s)[i] == s[i] as int
    ensures UnitsText(Utf16(s)) == s
  {
    if s != [] {
      assert IsBmp(s[1..]) by {
        forall i | 0 <= i < |s[1..]|
          ensures s[1..][i] as int < 0x1_0000
        {
          assert s[1..][i] == s[i + 1];
        }
      }
      BmpUnits(s[1..]);
      assert Utf16(s) == [s[0] as int] + Utf16(s[1..]);
    }
  }

  /** A character outside the Basic Multilingual Plane takes two units. */
  lemma AstralTakesTwoUnits(c: char)
    requires c as int >= 0x1_0000
    ensures |Utf16([c])| == 2
  {
    assert [c][1..] == [];
  }

  /** `s.substring(a, b)` on the code units of a string: both ends are
      clamped to the length, and swapped when the start lies after the
      end. */
  function Substring<T>(s: seq<T>, a: int, b: int): (r: seq<T>)
    ensures |r| <= |s|
    ensures 0 <= a <= b <= |s| ==> r == s[a..b]
  {
    var lo := if a < 0 then 0 else if a > |s| then |s| else a;
    var hi := if b < 0 then 0 else if b > |s| then |s| else b;
    if lo <= hi then s[lo..hi] else s[hi..lo]
  }

  /** The value of a hexadecimal digit, or -1 for any other character. */
  function HexDigitValue(c: char): (v: int)
    ensures -1 <= v < 16
  {
    if '0' <= c <= '9' then c as int - '0' as int
    else if 'a' <= c <= 'f' then c as int - 'a' as int + 10
    else if 'A' <= c <= 'F' then c as int - 'A' as int + 10
    else -1
  }

  predicate IsHexDigit(c: char)
  {
    HexDigitValue(c) >= 0
  }

  /** The number of hexadecimal digits at the start of `s`. */
  function HexDigitRun(s: string): (n: nat)
    ensures n <= |s|
  {
    if s != [] && IsHexDigit(s[0]) then 1 + HexDigitRun(s[1..]) else 0
  }

  /** The run is all hexadecimal digits and is not followed by one. */
  lemma {:induction false} HexDigitRunSpec(s: string)
    ensures var n := HexDigitRun(s);
      AllHex(s[..n]) && (n < |s| ==> !IsHexDigit(s[n]))
  {
    if s != [] && IsHexDigit(s[0]) {
      var n := 1 + HexDigitRun(s[1..]);
      HexDigitRunSpec(s[1..]);
      assert s[..n] == [s[0]] + s[1..][..n - 1];
    }
  }

  predicate AllHex(s: string)
  {
    forall i :: 0 <= i < |s| ==> IsHexDigit(s[i])
  }

  /** The value of a string of hexadecimal digits, most significant first. */
  function HexValue(s: string): nat
    requires AllHex(s)
  {
    if s == [] then 0
    else
      assert IsHexDigit(s[|s| - 1]);
      HexValue(s[..|s| - 1]) * 16 + HexDigitValue(s[|s| - 1])
  }

  /** `parseInt(s, 16)`, with `None` for NaN: leading white space is skipped,
      one sign is taken, a `0x`/`0X` prefix is dropped, and the longest run of
      hexadecimal digits that follows is read; NaN when that run is empty. */
  function ParseIntHex(s: string): (r: Option<int>)
    ensures TrimStart(s) == [] ==> r.None?
  {
    var t := TrimStart(s);
    var negative := |t| > 0 && t[0] == '-';
    var u := if |t| > 0 && (t[0] == '-' || t[0] == '+') then t[1..] else t;
    var v := if |u| >= 2 && u[0] == '0' && (u[1] == 'x' || u[1] == 'X') then u[2..] else u;
    var n := HexDigitRun(v);
    HexDigitRunSpec(v);
    if n == 0 then None
    else
      var magnitude: int := HexValue(v[..n]);
      Some(if negative then -magnitude else magnitude)
  }

  /** The value of the two hex digits at `i` and `i + 1`. */
  function HexPair(s: string, i: nat): int
    requires i + 1 < |s|
  {
    16 * HexDigitValue(s[i]) + HexDigitValue(s[i + 1])
  }

  /** Two hexadecimal digits parse to their two-digit value: there is no
      white space, sign or `0x` prefix to skip, since `x` is no hex digit. */
  lemma ParseTwoHexDigits(s: string)
    requires |s| == 2 && IsHexDigit(s[0]) && IsHexDigit(s[1])
    ensures ParseIntHex(s) == Some(HexPair(s, 0))
  {
    assert !IsJsSpace(s[0]);
    assert TrimStart(s) == s;
    assert s[0] != '-' && s[0] != '+';
    assert s[1] != 'x' && s[1] != 'X';
    assert s[1..][1..] == [];
    assert HexDigitRun(s[1..]) == 1;
    assert HexDigitRun(s) == 2;
    assert s[..2] == s;
    assert s[..1][..0] == [];
    assert HexValue(s[..1]) == HexDigitValue(s[0]);
  }

  /** The two hex digits after position `k` parse to their value. */
  lemma ParsePairAfter(color: string, k: nat)
    requires k + 3 <= |color|
    requires IsHexDigit(color[k + 1]) && IsHexDigit(color[k + 2])
    ensures ParseIntHex(color[k + 1..k + 3]) == Some(HexPair(color, k + 1))
  {
    var pair := color[k + 1..k + 3];
    assert pair[0] == color[k + 1] && pair[1] == color[k + 2];
    ParseTwoHexDigits(pair);
    assert HexPair(pair, 0) == HexPair(color, k + 1);
  }

  /** `parseInt("")` is NaN. */
  lemma ParseEmptyIsNaN()
    ensures ParseIntHex("") == None
  {
  }

  predicate IsDigit(c: char)
  {
    '0' <= c <= '9'
  }

  /** The value of the decimal digits `s[i..j]`: what `parseInt` returns
      for a capture of `\d+`. */
  function DecimalValue(s: string, i: nat, j: nat): nat
    requires i <= j <= |s|
    decreases j
  {
    if j == i then 0 else DecimalValue(s, i, j - 1) * 10 + DigitValue(s[j - 1])
  }

  /** The value of a decimal digit (0 for any other character, which the
      callers never pass). */
  function DigitValue(c: char): nat
  {
    if IsDigit(c) then c as int - '0' as int else 0
  }

  /** The end of the run of decimal digits that starts at `i`. */
  function DigitRunEnd(s: string, i: nat): (j: nat)
    requires i <= |s|
    ensures i <= j <= |s|
    decreases |s| - i
  {
    if i < |s| && IsDigit(s[i]) then DigitRunEnd(s, i + 1) else i
  }

  /** The run is all digits and is not followed by one. */
  lemma {:induction false} DigitRunEndSpec(s: string, i: nat)
    requires i <= |s|
    ensures var j := DigitRunEnd(s, i);
      (forall k :: i <= k < j ==> IsDigit(s[k])) && (j < |s| ==> !IsDigit(s[j]))
    decreases |s| - i
  {
    if i < |s| && IsDigit(s[i]) {
      DigitRunEndSpec(s, i + 1);
    }
  }

  /** The end of the run of white space that starts at `i`. */
  function SpaceRunEnd(s: string, i: nat): (j: nat)
    requires i <= |s|
    ensures i <= j <= |s|
    decreases |s| - i
  {
    if i < |s| && IsJsSpace(s[i]) then SpaceRunEnd(s, i + 1) else i
  }

  /** The run is all white space and is not followed by any. */
  lemma {:induction false} SpaceRunEndSpec(s: string, i: nat)
    requires i <= |s|
    ensures var j := SpaceRunEnd(s, i);
      (forall k :: i <= k < j ==> IsJsSpace(s[k])) && (j < |s| ==> !IsJsSpace(s[j]))
    decreases |s| - i
  {
    if i < |s| && IsJsSpace(s[i]) {
      SpaceRunEndSpec(s, i + 1);
    }
  }
}
