/** String helpers standing for the Python string operations the renderer
    uses: substring membership (`sub in s`), prefix tests, decimal rendering
    of integers in f-strings, and `sep.join(lines)`. */
module Text {

  /** `p` is a prefix of `s`. */
  predicate IsPrefix(p: string, s: string) {
    |p| <= |s| && s[..|p|] == p
  }

  /** Python's `sub in s` for strings: `sub` occurs somewhere in `s`. */
  predicate Contains(s: string, sub: string)
    decreases |s|
  {
    IsPrefix(sub, s) || (|s| > 0 && Contains(s[1..], sub))
  }

  /** `sub` occurs in `s` starting at index `i`. */
  predicate OccursAt(s: string, sub: string, i: int) {
    0 <= i <= |s| - |sub| && s[i..i + |sub|] == sub
  }

  /** `Contains` means what it says: `sub` occurs at some index of `s`. */
  lemma {:induction false} ContainsAt(s: string, sub: string)
    ensures Contains(s, sub) <==> exists i :: OccursAt(s, sub, i)
    decreases |s|
  {
    if IsPrefix(sub, s) {
      assert OccursAt(s, sub, 0);
    } else if |s| > 0 {
      ContainsAt(s[1..], sub);
      if Contains(s[1..], sub) {
        var i :| OccursAt(s[1..], sub, i);
        assert s[i + 1..i + 1 + |sub|] == s[1..][i..i + |sub|];
        assert OccursAt(s, sub, i + 1);
      }
      if exists i :: OccursAt(s, sub, i) {
        var i :| OccursAt(s, sub, i);
        assert i != 0;
        assert s[1..][i - 1..i - 1 + |sub|] == s[i..i + |sub|];
        assert OccursAt(s[1..], sub, i - 1);
      }
    }
  }

  function DigitChar(d: nat): (c: char)
    requires d < 10
    ensures '0' <= c <= '9'
    ensures DigitValue(c) == d
  {
    "0123456789"[d]
  }

  /** The value of a decimal digit character. */
  function DigitValue(c: char): int {
    c as int - '0' as int
  }

  /** The value of a string of decimal digits, most significant first. */
  function DigitsValue(s: string): int {
    if s == [] then 0 else 10 * DigitsValue(s[..|s| - 1]) + DigitValue(s[|s| - 1])
  }

  /** Python's `int(s)` on what `str` produces: an optional minus sign
      followed by digits. */
  function DecimalValue(s: string): int {
    if |s| > 0 && s[0] == '-' then -DigitsValue(s[1..]) else DigitsValue(s)
  }

  /** Decimal digits of `n`, most significant first, without leading zeros. */
  function NatToString(n: nat): (r: string)
    ensures |r| > 0
    ensures forall i :: 0 <= i < |r| ==> '0' <= r[i] <= '9'
    ensures |r| > 1 ==> r[0] != '0'
  {
    if n < 10 then [DigitChar(n)] else NatToString(n / 10) + [DigitChar(n % 10)]
  }

  /** Reading the digits back gives the number. */
  lemma {:induction false} NatToStringValue(n: nat)
    ensures DigitsValue(NatToString(n)) == n
  {
    var s := NatToString(n);
    if n < 10 {
      assert s[..0] == [];
    } else {
      NatToStringValue(n / 10);
      assert s[..|s| - 1] == NatToString(n / 10);
    }
  }

  /** Python's `str(i)` (and f-string `{i}`) for an integer. */
  function IntToString(i: int): (r: string)
    ensures |r| > 0
    ensures (r[0] == '-') <==> i < 0
    ensures var d := if i < 0 then 1 else 0;
      && |r| > d
      && (forall k :: d <= k < |r| ==> '0' <= r[k] <= '9')
      && (|r| > d + 1 ==> r[d] != '0')
    ensures DecimalValue(r) == i
  {
    if i < 0 then
      var digits := NatToString(-i);
      NatToStringValue(-i);
      MinusDigits(digits);
      "-" + digits
    else
      NatToStringValue(i);
      NatToString(i)
  }

  /** A minus sign before digits: the digits follow it, and the value is
      negated. */
  lemma MinusDigits(digits: string)
    ensures var r := "-" + digits;
      && r[0] == '-' && r[1..] == digits
      && (forall k :: 1 <= k < |r| ==> r[k] == digits[k - 1])
      && DecimalValue(r) == -DigitsValue(digits)
  {
    var r := "-" + digits;
    assert r[1..] == digits;
  }

  /** The sum of the lengths of the lines. */
  function TotalLength(lines: seq<string>): nat {
    if lines == [] then 0 else |lines[0]| + TotalLength(lines[1..])
  }

  /** Python's `sep.join(lines)`: the lines with one separator between each
      two, so its length is the lines' lengths plus one separator fewer than
      there are lines. */
  function Join(lines: seq<string>, sep: string): (r: string)
    ensures |lines| == 0 ==> r == ""
    ensures |lines| > 0 ==> |r| == TotalLength(lines) + (|lines| - 1) * |sep|
  {
    if |lines| == 0 then ""
    else if |lines| == 1 then lines[0]
    else lines[0] + sep + Join(lines[1..], sep)
  }

  /** Python's `s.split(sep)` for a one-character separator: the pieces
      between separators, empty ones included, and always at least one. */
  function Split(s: string, sep: char): (r: seq<string>)
    ensures |r| > 0
  {
    if s == [] then [""]
    else
      var rest := Split(s[1..], sep);
      if s[0] == sep then [""] + rest else [[s[0]] + rest[0]] + rest[1..]
  }

  /** A string without the separator is one piece. */
  lemma {:induction false} SplitWithoutSeparator(s: string, sep: char)
    requires sep !in s
    ensures Split(s, sep) == [s]
  {
    if s != [] {
      SplitWithoutSeparator(s[1..], sep);
      assert [s[0]] + s[1..] == s;
    }
  }

  /** A line without the separator, then the separator, is the first piece. */
  lemma {:induction false} SplitAfterLine(line: string, sep: char, rest: string)
    requires sep !in line
    ensures Split(line + [sep] + rest, sep) == [line] + Split(rest, sep)
  {
    var s := line + [sep] + rest;
    if line == [] {
      assert s[1..] == rest;
    } else {
      SplitAfterLine(line[1..], sep, rest);
      assert s[1..] == line[1..] + [sep] + rest;
      assert [line[0]] + line[1..] == line;
    }
  }

  /** Splitting joined lines gives the lines back, when none holds the
      separator. */
  lemma {:induction false} SplitJoin(lines: seq<string>, sep: char)
    requires |lines| > 0
    requires forall i :: 0 <= i < |lines| ==> sep !in lines[i]
    ensures Split(Join(lines, [sep]), sep) == lines
    decreases |lines|
  {
    if |lines| == 1 {
      SplitWithoutSeparator(lines[0], sep);
    } else {
      SplitJoin(lines[1..], sep);
      SplitAfterLine(lines[0], sep, Join(lines[1..], [sep]));
      assert [lines[0]] + lines[1..] == lines;
    }
  }

  /** The joined text begins with the first line. The second clause is the
      one-step unfolding of `Join`, stated for callers outside this module. */
  lemma JoinFirst(lines: seq<string>, sep: string)
    requires |lines| > 0
    ensures IsPrefix(lines[0], Join(lines, sep))
    ensures |lines| > 1 ==> Join(lines, sep) == lines[0] + sep + Join(lines[1..], sep)
  {
  }

  /** The joined text ends with the separator and the last line, whatever the
      lines before it are. */
  lemma {:induction false} JoinLast(lines: seq<string>, sep: string)
    requires |lines| > 1
    ensures Join(lines, sep) == Join(lines[..|lines| - 1], sep) + sep + lines[|lines| - 1]
    decreases |lines|
  {
    if |lines| > 2 {
      JoinLast(lines[1..], sep);
      assert lines[1..][..|lines[1..]| - 1] == lines[..|lines| - 1][1..];
    } else {
      assert lines[..|lines| - 1] == [lines[0]];
    }
  }
}
