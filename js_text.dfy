/** The pieces of JavaScript string behaviour that the session orchestrator relies on:
    `trim`, `split('\n')`, `replace(/[^0-9]/g, '')`, `match(/.{1,4}/g)` and `parseInt`. */
module JsText {

  import opened Wrappers

  // ---------------------------------------------------------------------------
  // Character classes
  // ---------------------------------------------------------------------------

  /** JavaScript's WhiteSpace and LineTerminator code points: what `trim` strips
      and what `parseInt` skips before the number. */
  predicate IsJsSpace(c: char) {
    var n := c as int;
    n == 0x09 || n == 0x0A || n == 0x0B || n == 0x0C || n == 0x0D || n == 0x20
    || n == 0xA0 || n == 0x1680 || (0x2000 <= n <= 0x200A) || n == 0x2028
    || n == 0x2029 || n == 0x202F || n == 0x205F || n == 0x3000 || n == 0xFEFF
  }

  /** The LineTerminator code points: the ones the pattern `.` does not match. */
  predicate IsLineTerminator(c: char) {
    c == '\n' || c == '\r' || c as int == 0x2028 || c as int == 0x2029
  }

  predicate IsAsciiDigit(c: char) {
    '0' <= c <= '9'
  }

  predicate IsHexDigit(c: char) {
    IsAsciiDigit(c) || 'a' <= c <= 'f' || 'A' <= c <= 'F'
  }

  /** A digit of base `radix`, which `parseInt` sets to 10 or, after a `0x` prefix, to 16. */
  predicate IsRadixDigit(c: char, radix: nat) {
    if radix == 16 then IsHexDigit(c) else IsAsciiDigit(c)
  }

  function DigitValue(c: char): (d: nat)
    requires IsHexDigit(c)
    ensures d < 16
    ensures IsAsciiDigit(c) ==> d < 10
  {
    if IsAsciiDigit(c) then (c as int) - ('0' as int)
    else if 'a' <= c <= 'f' then (c as int) - ('a' as int) + 10
    else (c as int) - ('A' as int) + 10
  }

  // ---------------------------------------------------------------------------
  // Phone numbers: replace(/[^0-9]/g, '')
  // ---------------------------------------------------------------------------

  /** The ASCII digits of `s` in their order; every other character is dropped. */
  function DigitsOnly(s: string): (r: string)
    ensures |r| <= |s|
    ensures forall i :: 0 <= i < |r| ==> IsAsciiDigit(r[i])
    ensures (forall i :: 0 <= i < |s| ==> IsAsciiDigit(s[i])) ==> r == s
  {
    if s == [] then []
    else if IsAsciiDigit(s[0]) then [s[0]] + DigitsOnly(s[1..])
    else DigitsOnly(s[1..])
  }

  /** The filter works piece by piece: the digits of `a + b` are those of `a` followed by those of `b`. */
  lemma {:induction false} DigitsOnlyConcat(a: string, b: string)
    ensures DigitsOnly(a + b) == DigitsOnly(a) + DigitsOnly(b)
  {
    if a == [] {
      assert a + b == b;
    } else {
      assert (a + b)[0] == a[0] && (a + b)[1..] == a[1..] + b;
      DigitsOnlyConcat(a[1..], b);
    }
  }

  /** A digit between two pieces is kept between their digits; any other character is dropped. */
  lemma DigitsOnlyAround(a: string, c: char, b: string)
    ensures DigitsOnly(a + [c] + b) == DigitsOnly(a) + (if IsAsciiDigit(c) then [c] else []) + DigitsOnly(b)
  {
    DigitsOnlyConcat(a + [c], b);
    DigitsOnlyConcat(a, [c]);
    assert [c][1..] == [];
  }

  lemma SplitAround(s: string, i: int)
    requires 0 <= i < |s|
    ensures s == s[..i] + [s[i]] + s[i + 1..]
  {
  }

  /** Each character of `s` contributes itself if it is a digit and nothing otherwise, between
      the digits of what comes before it and of what comes after it: every digit is kept, in order. */
  lemma DigitsOnlyAt(s: string, i: int)
    requires 0 <= i < |s|
    ensures DigitsOnly(s) == DigitsOnly(s[..i]) + (if IsAsciiDigit(s[i]) then [s[i]] else []) + DigitsOnly(s[i + 1..])
  {
    SplitAround(s, i);
    DigitsOnlyAround(s[..i], s[i], s[i + 1..]);
  }

  lemma DigitsOnlyEverywhere(s: string)
    ensures forall i :: 0 <= i < |s| ==>
      DigitsOnly(s) == DigitsOnly(s[..i]) + (if IsAsciiDigit(s[i]) then [s[i]] else []) + DigitsOnly(s[i + 1..])
  {
    forall i | 0 <= i < |s|
      ensures DigitsOnly(s) == DigitsOnly(s[..i]) + (if IsAsciiDigit(s[i]) then [s[i]] else []) + DigitsOnly(s[i + 1..])
    {
      DigitsOnlyAt(s, i);
    }
  }

  /** Normalising twice is normalising once. */
  lemma DigitsOnlyIdempotent(s: string)
    ensures DigitsOnly(DigitsOnly(s)) == DigitsOnly(s)
  {
  }

  // ---------------------------------------------------------------------------
  // trim
  // ---------------------------------------------------------------------------

  function TrimStart(s: string): (r: string)
    ensures |r| <= |s|
  {
    if s != [] && IsJsSpace(s[0]) then TrimStart(s[1..]) else s
  }

  /** `TrimStart` removes a prefix made only of white space, and stops at the first other character. */
  lemma {:induction false} TrimStartFacts(s: string)
    ensures TrimStart(s) == s[|s| - |TrimStart(s)|..]
    ensures TrimStart(s) == [] || !IsJsSpace(TrimStart(s)[0])
    ensures forall i :: 0 <= i < |s| - |TrimStart(s)| ==> IsJsSpace(s[i])
  {
    if s != [] && IsJsSpace(s[0]) {
      TrimStartFacts(s[1..]);
    }
  }

  function TrimEnd(s: string): (r: string)
    ensures |r| <= |s|
  {
    if s != [] && IsJsSpace(s[|s| - 1]) then TrimEnd(s[..|s| - 1]) else s
  }

  /** `TrimEnd` removes a suffix made only of white space, and stops at the last other character. */
  lemma {:induction false} TrimEndFacts(s: string)
    ensures TrimEnd(s) == s[..|TrimEnd(s)|]
    ensures TrimEnd(s) == [] || !IsJsSpace(TrimEnd(s)[|TrimEnd(s)| - 1])
    ensures forall i :: |TrimEnd(s)| <= i < |s| ==> IsJsSpace(s[i])
  {
    if s != [] && IsJsSpace(s[|s| - 1]) {
      TrimEndFacts(s[..|s| - 1]);
    }
  }

  /** `s.trim()`: `s` without its leading and trailing white space. */
  function Trim(s: string): string {
    TrimEnd(TrimStart(s))
  }

  /** The trimmed string neither starts nor ends with white space. */
  lemma TrimFacts(s: string)
    ensures Trim(s) == [] || (!IsJsSpace(Trim(s)[0]) && !IsJsSpace(Trim(s)[|Trim(s)| - 1]))
  {
    TrimStartFacts(s);
    TrimEndFacts(TrimStart(s));
  }

  /** Trimming only removes characters: every character of the result comes from `s`,
      and the result is empty exactly when `s` is all white space. */
  lemma TrimChars(s: string)
    ensures forall c :: c in Trim(s) ==> c in s
    ensures (forall c :: c in s ==> IsJsSpace(c)) <==> Trim(s) == []
  {
    var t := TrimStart(s);
    var r := TrimEnd(t);
    TrimStartFacts(s);
    TrimEndFacts(t);
    forall c | c in r ensures c in s {
      var i :| 0 <= i < |r| && r[i] == c;
      assert t[i] == c;
      assert s[|s| - |t| + i] == c;
    }
    if r == [] {
      assert t == [];
      forall c | c in s ensures IsJsSpace(c) {
        var i :| 0 <= i < |s| && s[i] == c;
      }
    }
  }

  /** A string that already neither starts nor ends with white space is left alone. */
  predicate IsTrimmed(s: string) {
    s == [] || (!IsJsSpace(s[0]) && !IsJsSpace(s[|s| - 1]))
  }

  lemma TrimOfTrimmed(s: string)
    requires IsTrimmed(s)
    ensures Trim(s) == s
  {
  }

  // ---------------------------------------------------------------------------
  // split('\n') and join('\n')
  // ---------------------------------------------------------------------------

  /** `s.split('\n')`: the pieces between the newlines, never an empty list. */
  function SplitLines(s: string): (r: seq<string>)
    ensures |r| >= 1
    ensures forall i :: 0 <= i < |r| ==> '\n' !in r[i]
  {
    if s == [] then [""]
    else
      var rest := SplitLines(s[1..]);
      if s[0] == '\n' then [""] + rest
      else [[s[0]] + rest[0]] + rest[1..]
  }

  /** `lines.join('\n')`. */
  function JoinLines(lines: seq<string>): string {
    if lines == [] then ""
    else if |lines| == 1 then lines[0]
    else lines[0] + "\n" + JoinLines(lines[1..])
  }

  /** Joining the pieces of a split gives back the original text. */
  lemma {:induction false} JoinSplitLines(s: string)
    ensures JoinLines(SplitLines(s)) == s
  {
    if s != [] {
      var rest := SplitLines(s[1..]);
      JoinSplitLines(s[1..]);
      if s[0] == '\n' {
        assert SplitLines(s)[1..] == rest;
      } else if |rest| == 1 {
        assert SplitLines(s) == [[s[0]] + rest[0]];
      } else {
        var r := SplitLines(s);
        assert r[1..] == rest[1..];
        assert JoinLines(rest) == rest[0] + "\n" + JoinLines(rest[1..]);
        assert JoinLines(r) == [s[0]] + rest[0] + "\n" + JoinLines(rest[1..]);
      }
    }
  }

  /** Splitting text that starts with a newline-free prefix `a` glues `a` to the first piece. */
  lemma {:induction false} SplitLinesPrefix(a: string, t: string)
    requires '\n' !in a
    ensures SplitLines(a + t) == [a + SplitLines(t)[0]] + SplitLines(t)[1..]
  {
    if a == [] {
      var r := SplitLines(t);
      assert a + t == t && a + r[0] == r[0];
      assert [r[0]] + r[1..] == r;
    } else {
      assert (a + t)[0] == a[0] && (a + t)[1..] == a[1..] + t;
      SplitLinesPrefix(a[1..], t);
      assert [a[0]] + (a[1..] + SplitLines(t)[0]) == a + SplitLines(t)[0];
    }
  }

  /** Splitting newline-free lines joined by newlines gives back the lines. */
  lemma {:induction false} SplitJoinLines(lines: seq<string>)
    requires |lines| >= 1
    requires forall i :: 0 <= i < |lines| ==> '\n' !in lines[i]
    ensures SplitLines(JoinLines(lines)) == lines
  {
    if |lines| == 1 {
      SplitLinesPrefix(lines[0], "");
      assert lines[0] + "" == lines[0];
    } else {
      var t := "\n" + JoinLines(lines[1..]);
      SplitJoinLines(lines[1..]);
      assert t[1..] == JoinLines(lines[1..]);
      assert SplitLines(t) == [""] + lines[1..];
      assert lines[0] + "\n" + JoinLines(lines[1..]) == lines[0] + t;
      SplitLinesPrefix(lines[0], t);
      assert lines[0] + "" == lines[0];
    }
  }

  // ---------------------------------------------------------------------------
  // match(/.{1,4}/g)
  // ---------------------------------------------------------------------------

  /** How many leading characters of `s`, at most `k`, contain no line terminator. */
  function RunUpTo(s: string, k: nat): (n: nat)
    ensures n <= k && n <= |s|
    ensures forall i :: 0 <= i < n ==> !IsLineTerminator(s[i])
    ensures n < k && n < |s| ==> IsLineTerminator(s[n])
  {
    if k == 0 || s == [] || IsLineTerminator(s[0]) then 0 else 1 + RunUpTo(s[1..], k - 1)
  }

  /** `s` with its line terminators removed. */
  function WithoutTerminators(s: string): (r: string)
    ensures forall i :: 0 <= i < |r| ==> !IsLineTerminator(r[i])
  {
    if s == [] then []
    else if IsLineTerminator(s[0]) then WithoutTerminators(s[1..])
    else [s[0]] + WithoutTerminators(s[1..])
  }

  lemma {:induction false} WithoutTerminatorsConcat(a: string, b: string)
    ensures WithoutTerminators(a + b) == WithoutTerminators(a) + WithoutTerminators(b)
  {
    if a == [] {
      assert a + b == b;
    } else {
      assert (a + b)[0] == a[0] && (a + b)[1..] == a[1..] + b;
      WithoutTerminatorsConcat(a[1..], b);
    }
  }

  lemma {:induction false} WithoutTerminatorsOfPlain(s: string)
    requires forall i :: 0 <= i < |s| ==> !IsLineTerminator(s[i])
    ensures WithoutTerminators(s) == s
  {
    if s != [] {
      WithoutTerminatorsOfPlain(s[1..]);
    }
  }

  function Concat(parts: seq<string>): string {
    if parts == [] then "" else parts[0] + Concat(parts[1..])
  }

  /** The successive matches of the global pattern `.{1,4}` in `s`: each match takes as many
      characters as it can, up to four, and a line terminator is skipped between matches. */
  function Chunks(s: string): (r: seq<string>)
    ensures forall i :: 0 <= i < |r| ==> 1 <= |r[i]| <= 4
    ensures forall i, j :: 0 <= i < |r| && 0 <= j < |r[i]| ==> !IsLineTerminator(r[i][j])
    ensures Concat(r) == WithoutTerminators(s)
    decreases |s|
  {
    if s == [] then []
    else if IsLineTerminator(s[0]) then Chunks(s[1..])
    else
      var n := RunUpTo(s, 4);
      assert s == s[..n] + s[n..];
      WithoutTerminatorsConcat(s[..n], s[n..]);
      WithoutTerminatorsOfPlain(s[..n]);
      [s[..n]] + Chunks(s[n..])
  }

  /** For text without line terminators the matches are full groups of four, except perhaps the last. */
  lemma {:induction false} ChunksOfPlain(s: string)
    requires forall i :: 0 <= i < |s| ==> !IsLineTerminator(s[i])
    ensures Concat(Chunks(s)) == s
    ensures forall i :: 0 <= i < |Chunks(s)| - 1 ==> |Chunks(s)[i]| == 4
    ensures |Chunks(s)| == (|s| + 3) / 4
  {
    WithoutTerminatorsOfPlain(s);
    if s != [] {
      var n := RunUpTo(s, 4);
      assert n == 4 || n == |s|;
      ChunksOfPlain(s[n..]);
    }
  }

  /** `parts.join('-')`. */
  function JoinDash(parts: seq<string>): string {
    if parts == [] then ""
    else if |parts| == 1 then parts[0]
    else parts[0] + "-" + JoinDash(parts[1..])
  }

  /** `s` without its '-' characters. */
  function WithoutDashes(s: string): (r: string)
    ensures '-' !in r
  {
    if s == [] then [] else if s[0] == '-' then WithoutDashes(s[1..]) else [s[0]] + WithoutDashes(s[1..])
  }

  lemma {:induction false} WithoutDashesConcat(a: string, b: string)
    ensures WithoutDashes(a + b) == WithoutDashes(a) + WithoutDashes(b)
  {
    if a == [] {
      assert a + b == b;
    } else {
      assert (a + b)[0] == a[0] && (a + b)[1..] == a[1..] + b;
      WithoutDashesConcat(a[1..], b);
    }
  }

  lemma {:induction false} WithoutDashesOfPlain(s: string)
    requires '-' !in s
    ensures WithoutDashes(s) == s
  {
    if s != [] {
      WithoutDashesOfPlain(s[1..]);
    }
  }

  /** Removing the separators of a dash-join is the same as removing the dashes of the concatenation. */
  lemma {:induction false} WithoutDashesJoin(parts: seq<string>)
    ensures WithoutDashes(JoinDash(parts)) == WithoutDashes(Concat(parts))
  {
    if |parts| == 1 {
      assert parts[1..] == [];
      assert Concat(parts) == parts[0] + "" == parts[0];
    } else if |parts| > 1 {
      WithoutDashesJoin(parts[1..]);
      WithoutDashesConcat(parts[0] + "-", JoinDash(parts[1..]));
      WithoutDashesConcat(parts[0], "-");
      WithoutDashesConcat(parts[0], Concat(parts[1..]));
      assert WithoutDashes("-") == [];
    }
  }

  // ---------------------------------------------------------------------------
  // parseInt
  // ---------------------------------------------------------------------------

  /** Length of the longest prefix of `s` made of digits of base `radix`. */
  function DigitRun(s: string, radix: nat): (n: nat)
    ensures n <= |s|
    ensures forall i :: 0 <= i < n ==> IsRadixDigit(s[i], radix)
    ensures n < |s| ==> !IsRadixDigit(s[n], radix)
  {
    if s == [] || !IsRadixDigit(s[0], radix) then 0 else 1 + DigitRun(s[1..], radix)
  }

  /** The number written by `ds`, most significant digit first. */
  function ValueOf(ds: string, radix: nat): nat
    requires forall i :: 0 <= i < |ds| ==> IsHexDigit(ds[i])
  {
    if ds == [] then 0 else ValueOf(ds[..|ds| - 1], radix) * radix + DigitValue(ds[|ds| - 1])
  }

  /** The number after the sign: a `0x`/`0X` prefix switches to base 16, then the longest run
      of digits is read; `None` when there is no digit. */
  function ParseUnsigned(u: string): (r: Option<nat>)
    ensures r.Some? ==> u != [] && IsAsciiDigit(u[0])
  {
    var hex := |u| >= 2 && u[0] == '0' && (u[1] == 'x' || u[1] == 'X');
    var radix := if hex then 16 else 10;
    var body := if hex then u[2..] else u;
    var n := DigitRun(body, radix);
    if n == 0 then None else Some(ValueOf(body[..n], radix))
  }

  /** `parseInt(s)` with no radix argument; `None` is NaN. Leading white space is skipped and
      one sign is taken before the number. A negative zero is reported as 0, which the
      `|| 5` of the caller treats the same way. */
  function ParseInt(s: string): (r: Option<int>)
    ensures r.Some? ==> exists i :: 0 <= i < |s| && IsAsciiDigit(s[i])
  {
    var t := TrimStart(s);
    TrimStartFacts(s);
    var u := if t != [] && (t[0] == '-' || t[0] == '+') then t[1..] else t;
    var p := ParseUnsigned(u);
    if p.None? then None
    else
      assert s[|s| - |u|] == u[0];
      Some(if t[0] == '-' then -(p.value as int) else p.value)
  }

  /** The decimal numeral of `n`, as JavaScript prints a non-negative integer. */
  function Decimal(n: nat): (r: string)
    ensures |r| >= 1
    ensures forall i :: 0 <= i < |r| ==> IsAsciiDigit(r[i])
    ensures r[0] == '0' ==> n == 0
  {
    var d := ['0' + ((n % 10) as char)];
    if n < 10 then d else Decimal(n / 10) + d
  }

  lemma {:induction false} ValueOfDecimal(n: nat)
    ensures ValueOf(Decimal(n), 10) == n
  {
    if n >= 10 {
      ValueOfDecimal(n / 10);
      var r := Decimal(n);
      assert r[..|r| - 1] == Decimal(n / 10);
    }
  }

  lemma {:induction false} DigitRunOfDecimal(n: nat, rest: string)
    requires rest == [] || !IsAsciiDigit(rest[0])
    ensures DigitRun(Decimal(n) + rest, 10) == |Decimal(n)|
  {
    var d := Decimal(n);
    assert forall i :: 0 <= i < |d| ==> IsRadixDigit((d + rest)[i], 10);
    assert |d| < |d + rest| ==> !IsRadixDigit((d + rest)[|d|], 10);
  }

  /** `parseInt` reads back the decimal numeral of `n` and stops at the first character
      that is not a digit (as in "12 seconds"), unless that character turns a lone "0" into
      a "0x" prefix. */
  lemma ParseIntDecimal(n: nat, rest: string)
    requires rest == [] || !IsAsciiDigit(rest[0])
    requires n == 0 && rest != [] ==> rest[0] != 'x' && rest[0] != 'X'
    ensures ParseInt(Decimal(n) + rest) == Some(n)
  {
    var s := Decimal(n) + rest;
    assert !IsJsSpace(s[0]);
    assert TrimStart(s) == s;
    ParseUnsignedDecimal(n, rest);
  }

  lemma ParseUnsignedDecimal(n: nat, rest: string)
    requires rest == [] || !IsAsciiDigit(rest[0])
    requires n == 0 && rest != [] ==> rest[0] != 'x' && rest[0] != 'X'
    ensures ParseUnsigned(Decimal(n) + rest) == Some(n)
  {
    var u := Decimal(n) + rest;
    assert !(|u| >= 2 && u[0] == '0' && (u[1] == 'x' || u[1] == 'X'));
    DigitRunOfDecimal(n, rest);
    assert u[..|Decimal(n)|] == Decimal(n);
    ValueOfDecimal(n);
  }

  /** A leading minus sign negates the number. */
  lemma ParseIntNegative(n: nat)
    requires n > 0
    ensures ParseInt("-" + Decimal(n)) == Some(-(n as int))
  {
    var s := "-" + Decimal(n);
    assert !IsJsSpace(s[0]);
    assert TrimStart(s) == s;
    assert s[1..] == Decimal(n) + [];
    ParseUnsignedDecimal(n, []);
  }
}
