/**
 * The parts of Java's standard library that the modelled code leans on, stated
 * as functions on `string` (= `seq<char>`): `String.trim`, `Integer.parseInt`,
 * `Integer.toString`, `BufferedReader.readLine`, `String.split` on one
 * character, the narrowing `Number.intValue`, and the exceptions they throw.
 */
module JavaText {
  import opened Wrappers

  // ---------------------------------------------------------------------------
  // 32-bit integers
  // ---------------------------------------------------------------------------

  const INT_MIN: int := -0x8000_0000
  const INT_MAX: int := 0x7fff_ffff
  const TWO_32: int := 0x1_0000_0000

  predicate IsInt32(n: int) {
    INT_MIN <= n <= INT_MAX
  }

  /** `Number.intValue()` of an integral number: its low 32 bits, read as two's complement. */
  function ToInt32(n: int): (r: int)
    ensures IsInt32(r)
    ensures (n - r) % TWO_32 == 0
    ensures IsInt32(n) ==> r == n
  {
    var m := n % TWO_32;
    assert n == TWO_32 * (n / TWO_32) + m;
    if m <= INT_MAX then m else m - TWO_32
  }

  /** Exceptions that the modelled code lets the JVM or a library throw, by kind. */
  datatype JvmError =
    | ClassCast    // a typed JSON getter applied to a value of another type
    | NullPointer  // a call on, or an unboxing of, `null`
    | Decode       // a request body that is not a JSON object

  /** The message of the `NumberFormatException` that `Integer.parseInt(s)` throws. */
  function NumberFormatMessage(s: string): string {
    "For input string: \"" + s + "\""
  }

  /** Java's string concatenation of a possibly-null string: `null` prints as "null". */
  function Concat(s: Option<string>): string {
    match s
    case Some(t) => t
    case None => "null"
  }

  // ---------------------------------------------------------------------------
  // Decimal digits
  // ---------------------------------------------------------------------------

  predicate IsDigit(c: char) {
    '0' <= c <= '9'
  }

  predicate IsDigits(s: string) {
    forall i :: 0 <= i < |s| ==> IsDigit(s[i])
  }

  function DigitValue(c: char): nat
    requires IsDigit(c)
  {
    (c as int) - ('0' as int)
  }

  function DigitChar(d: nat): (c: char)
    requires d < 10
    ensures IsDigit(c) && DigitValue(c) == d
  {
    (('0' as int) + d) as char
  }

  /** The value of a run of decimal digits, most significant first; leading zeros are allowed. */
  function DigitsValue(s: string): nat
    requires IsDigits(s)
    decreases |s|
  {
    if s == [] then 0 else 10 * DigitsValue(s[..|s| - 1]) + DigitValue(s[|s| - 1])
  }

  /** `Integer.toString` of a non-negative value: the shortest digit run that has that value. */
  function NatToDecimal(n: nat): (r: string)
    ensures 0 < |r| && IsDigits(r)
    ensures DigitsValue(r) == n
    ensures r[0] == '0' ==> n == 0
    decreases n
  {
    if n < 10 then [DigitChar(n)]
    else
      var prefix := NatToDecimal(n / 10);
      var r := prefix + [DigitChar(n % 10)];
      assert r[..|r| - 1] == prefix;
      r
  }

  /** Values below 1000 print with at most three digits. */
  lemma DecimalOfByteWidth(n: nat)
    requires n < 1000
    ensures |NatToDecimal(n)| <= 3
  {
    if n >= 10 {
      assert NatToDecimal(n) == NatToDecimal(n / 10) + [DigitChar(n % 10)];
      if n / 10 >= 10 {
        assert NatToDecimal(n / 10) == NatToDecimal(n / 100) + [DigitChar((n / 10) % 10)];
      }
    }
  }

  /** `Integer.toString` (and `"" + n`) of any integer: a minus sign before a negative value's digits. */
  function IntToDecimal(n: int): (r: string)
    ensures 0 < |r|
    ensures r[0] == '-' <==> n < 0
  {
    if n < 0 then "-" + NatToDecimal(-n) else NatToDecimal(n)
  }

  /**
   * `Integer.parseInt(s)`: an optional '+' or '-', then at least one digit, and
   * a value inside the `int` range; anything else throws, here `None`.
   * No whitespace is skipped.
   */
  function ParseInt(s: string): (r: Option<int>)
    ensures r.Some? ==> IsInt32(r.value)
  {
    var signed := |s| > 0 && (s[0] == '-' || s[0] == '+');
    var digits := if signed then s[1..] else s;
    if digits == [] || !IsDigits(digits) then None
    else
      var v: int := if signed && s[0] == '-' then -(DigitsValue(digits) as int) else DigitsValue(digits) as int;
      if IsInt32(v) then Some(v) else None
  }

  /** Parsing what `Integer.toString` printed gives the value back, for every `int`. */
  lemma ParseIntOfDecimal(n: int)
    requires IsInt32(n)
    ensures ParseInt(IntToDecimal(n)) == Some(n)
  {
    if n < 0 {
      var d := NatToDecimal(-n);
      assert ("-" + d)[1..] == d;
    }
  }

  /** Printing is one-to-one: distinct integers print differently. */
  lemma DecimalInjective(a: int, b: int)
    requires IntToDecimal(a) == IntToDecimal(b)
    ensures a == b
  {
    var s := IntToDecimal(a);
    if a < 0 {
      assert s[1..] == NatToDecimal(-a) == NatToDecimal(-b);
    }
  }

  /** A run of one to three digits always parses, to its digit value; leading zeros are fine. */
  lemma ParseIntOfShortDigits(s: string)
    requires 0 < |s| <= 3 && IsDigits(s)
    ensures ParseInt(s) == Some(DigitsValue(s))
  {
    DigitsValueBound(s);
  }

  lemma {:induction false} DigitsValueBound(s: string)
    requires IsDigits(s)
    ensures |s| <= 3 ==> DigitsValue(s) < 1000
    ensures |s| <= 2 ==> DigitsValue(s) < 100
    ensures |s| <= 1 ==> DigitsValue(s) < 10
    decreases |s|
  {
    if s != [] {
      DigitsValueBound(s[..|s| - 1]);
    }
  }

  // ---------------------------------------------------------------------------
  // String.trim
  // ---------------------------------------------------------------------------

  /** The characters `String.trim()` strips: every code point up to U+0020. */
  predicate IsTrimmed(c: char) {
    c <= ' '
  }

  function LeadingCount(s: string): (n: nat)
    ensures n <= |s|
    ensures forall k :: 0 <= k < n ==> IsTrimmed(s[k])
    ensures n < |s| ==> !IsTrimmed(s[n])
    decreases |s|
  {
    if s == [] || !IsTrimmed(s[0]) then 0
    else
      var n := 1 + LeadingCount(s[1..]);
      assert forall k :: 1 <= k < n ==> s[k] == s[1..][k - 1];
      n
  }

  function TrailingStart(s: string): (j: nat)
    ensures j <= |s|
    ensures forall k :: j <= k < |s| ==> IsTrimmed(s[k])
    ensures 0 < j ==> !IsTrimmed(s[j - 1])
    decreases |s|
  {
    if s == [] || !IsTrimmed(s[|s| - 1]) then |s|
    else
      var j := TrailingStart(s[..|s| - 1]);
      assert forall k :: j <= k < |s| - 1 ==> s[k] == s[..|s| - 1][k];
      j
  }

  /**
   * `String.trim()`: the slice of `s` left after removing the trimmable
   * characters at both ends. The result is empty exactly when every character
   * of `s` is trimmable.
   */
  function Trim(s: string): (r: string)
    ensures r == [] || (!IsTrimmed(r[0]) && !IsTrimmed(r[|r| - 1]))
    ensures var i := LeadingCount(s);
      && i + |r| <= |s| && s[i..i + |r|] == r
      && (forall k :: 0 <= k < i ==> IsTrimmed(s[k]))
      && (forall k :: i + |r| <= k < |s| ==> IsTrimmed(s[k]))
    ensures r == [] <==> forall k :: 0 <= k < |s| ==> IsTrimmed(s[k])
  {
    var i := LeadingCount(s);
    var t := s[i..];
    var j := TrailingStart(t);
    assert forall k :: i + j <= k < |s| ==> s[k] == t[k - i];
    t[..j]
  }

  /** `s.trim().isEmpty()`. */
  predicate IsBlank(s: string) {
    Trim(s) == []
  }

  /** `s == null || s.trim().isEmpty()`. */
  predicate IsNullOrBlank(s: Option<string>) {
    s.None? || IsBlank(s.value)
  }

  /** Whatever `Integer.parseInt` accepts holds a digit, so it is never blank. */
  lemma ParsedIsNotBlank(s: string)
    ensures ParseInt(s).Some? ==> !IsBlank(s)
  {
    if ParseInt(s).Some? {
      var k := if s[0] == '-' || s[0] == '+' then 1 else 0;
      assert IsDigit(s[k]);
    }
  }

  // ---------------------------------------------------------------------------
  // BufferedReader.readLine
  // ---------------------------------------------------------------------------

  predicate IsLineBreak(c: char) {
    c == '\n' || c == '\r'
  }

  predicate HasNoLineBreak(s: string) {
    forall k :: 0 <= k < |s| ==> !IsLineBreak(s[k])
  }

  /** The index of the first line terminator character of `s`, or `|s|` if it has none. */
  function LineEnd(s: string): (i: nat)
    ensures i <= |s|
    ensures i < |s| ==> IsLineBreak(s[i])
    ensures HasNoLineBreak(s[..i])
    decreases |s|
  {
    if s == [] || IsLineBreak(s[0]) then 0
    else
      var i := 1 + LineEnd(s[1..]);
      assert forall k :: 1 <= k < i ==> s[k] == s[1..][k - 1];
      i
  }

  /**
   * One `readLine()` on the unread text `s`: the line, without its terminator,
   * and the text after it. A terminator is "\n", "\r" or "\r\n"; the last line
   * may have none.
   */
  function ReadLine(s: string): (r: (string, string))
    requires s != []
    ensures HasNoLineBreak(r.0)
    ensures || s == r.0
            || s == r.0 + "\n" + r.1
            || s == r.0 + "\r" + r.1
            || s == r.0 + "\r\n" + r.1
    ensures s == r.0 ==> r.1 == []
    ensures |r.1| < |s|
  {
    var i := LineEnd(s);
    if i == |s| then (s, [])
    else if s[i] == '\r' && i + 1 < |s| && s[i + 1] == '\n' then
      assert s == s[..i] + "\r\n" + s[i + 2..];
      (s[..i], s[i + 2..])
    else
      assert s == s[..i] + [s[i]] + s[i + 1..];
      (s[..i], s[i + 1..])
  }

  /** Text without carriage returns: a line ends at "\n" or at the end, and the rest has none either. */
  lemma ReadLineWithoutReturn(s: string)
    requires s != [] && '\r' !in s
    ensures var (line, rest) := ReadLine(s);
      && (s == line + "\n" + rest || (s == line && rest == []))
      && '\r' !in rest
  {
    var i := LineEnd(s);
    if i < |s| {
      assert s[i] in s;
      assert s == s[..i] + "\n" + s[i + 1..];
      assert forall c :: c in s[i + 1..] ==> c in s;
    }
  }

  /** The lines a `while ((line = reader.readLine()) != null)` loop sees, in order. */
  function ReadLines(s: string): (lines: seq<string>)
    ensures forall k :: 0 <= k < |lines| ==> HasNoLineBreak(lines[k])
    decreases |s|
  {
    if s == [] then []
    else
      var (line, rest) := ReadLine(s);
      [line] + ReadLines(rest)
  }

  /** The first line a loop sees is what one `readLine` returns, and the rest are the lines of what it leaves. */
  lemma ReadLinesStep(s: string)
    requires s != []
    ensures var lines := ReadLines(s);
      lines != [] && lines[0] == ReadLine(s).0 && lines[1..] == ReadLines(ReadLine(s).1)
  {
    var (line, rest) := ReadLine(s);
    assert ReadLines(s) == [line] + ReadLines(rest);
  }

  // ---------------------------------------------------------------------------
  // Splitting on one character
  // ---------------------------------------------------------------------------

  /** `s` cut at every `sep`, keeping empty pieces (`s.split(sep, -1)` in Java). */
  function Split(s: string, sep: char): (parts: seq<string>)
    ensures |parts| > 0
    ensures forall k :: 0 <= k < |parts| ==> sep !in parts[k]
    decreases |s|
  {
    if s == [] then [[]]
    else
      var rest := Split(s[1..], sep);
      if s[0] == sep then [[]] + rest
      else
        assert sep !in [s[0]] + rest[0];
        [[s[0]] + rest[0]] + rest[1..]
  }

  /** The pieces with `sep` between neighbours (`String.join`). */
  function Join(parts: seq<string>, sep: char): string
    decreases |parts|
  {
    if parts == [] then []
    else if |parts| == 1 then parts[0]
    else parts[0] + [sep] + Join(parts[1..], sep)
  }

  /** `String.join(sep, parts)` and `Collectors.joining(sep)`: the pieces with the text `sep` between neighbours. */
  function JoinWith(parts: seq<string>, sep: string): string
    decreases |parts|
  {
    if parts == [] then []
    else if |parts| == 1 then parts[0]
    else parts[0] + sep + JoinWith(parts[1..], sep)
  }

  /** Joining the pieces restores the string. */
  lemma {:induction false} JoinSplit(s: string, sep: char)
    ensures Join(Split(s, sep), sep) == s
    decreases |s|
  {
    if s != [] {
      JoinSplit(s[1..], sep);
      var rest := Split(s[1..], sep);
      if s[0] == sep {
        assert ([[]] + rest)[1..] == rest;
        assert s == [sep] + s[1..];
      } else {
        var parts := [[s[0]] + rest[0]] + rest[1..];
        assert parts[1..] == rest[1..];
        if |rest| == 1 {
          assert s == [s[0]] + rest[0];
        } else {
          assert Join(rest, sep) == rest[0] + [sep] + Join(rest[1..], sep);
          assert s == [s[0]] + rest[0] + [sep] + Join(rest[1..], sep);
        }
      }
    }
  }

  lemma {:induction false} SplitPrefix(p: string, t: string, sep: char)
    requires sep !in p
    ensures Split(p + t, sep) == [p + Split(t, sep)[0]] + Split(t, sep)[1..]
    decreases |p|
  {
    if p == [] {
      var parts := Split(t, sep);
      assert p + t == t && p + parts[0] == parts[0];
      assert parts == [parts[0]] + parts[1..];
    } else {
      SplitPrefix(p[1..], t, sep);
      assert (p + t)[1..] == p[1..] + t;
      assert [p[0]] + (p[1..] + Split(t, sep)[0]) == p + Split(t, sep)[0];
    }
  }

  /** Splitting the joined pieces gives the pieces back, when none holds the separator. */
  lemma {:induction false} SplitJoin(parts: seq<string>, sep: char)
    requires |parts| > 0
    requires forall k :: 0 <= k < |parts| ==> sep !in parts[k]
    ensures Split(Join(parts, sep), sep) == parts
    decreases |parts|
  {
    if |parts| == 1 {
      SplitPrefix(parts[0], [], sep);
      assert parts[0] + [] == parts[0];
    } else {
      var tail := [sep] + Join(parts[1..], sep);
      SplitJoin(parts[1..], sep);
      assert tail[1..] == Join(parts[1..], sep);
      assert Split(tail, sep) == [[]] + parts[1..];
      SplitPrefix(parts[0], tail, sep);
      assert parts[0] + tail == Join(parts, sep);
      assert parts[0] + [] == parts[0];
    }
  }
}
