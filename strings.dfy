/** The string functions of the .NET base library that the converter relies
    on, written out over `seq<char>`: white-space tests and trimming, ordinal
    prefix and substring tests, decimal formatting and parsing of 32-bit
    integers, and the newline join, split and escape replacement used when
    dialogue moves between script lines and translation tables. */
module Strings {
  import opened Wrappers

  /** `char.IsWhiteSpace`: U+0009..U+000D, U+0020, U+0085, U+00A0 and the
      Unicode space, line and paragraph separators (U+1680, U+2000..U+200A,
      U+2028, U+2029, U+202F, U+205F, U+3000). */
  predicate IsWhiteSpace(c: char) {
    || ('\t' <= c <= '\r')
    || c == ' '
    || c == '\U{85}'
    || c == '\U{A0}'
    || c == '\U{1680}'
    || ('\U{2000}' <= c <= '\U{200A}')
    || c == '\U{2028}'
    || c == '\U{2029}'
    || c == '\U{202F}'
    || c == '\U{205F}'
    || c == '\U{3000}'
  }

  /** Ordinal `s.StartsWith(prefix)`. */
  predicate StartsWith(s: string, prefix: string) {
    |prefix| <= |s| && s[..|prefix|] == prefix
  }

  /** `sub` occurs in `s` at position `i`. */
  predicate OccursAt(s: string, sub: string, i: int) {
    0 <= i && i + |sub| <= |s| && forall j :: 0 <= j < |sub| ==> s[i + j] == sub[j]
  }

  /** Ordinal `s.Contains(sub)`, scanning left to right. */
  function Contains(s: string, sub: string): (r: bool)
    ensures r <==> exists i :: OccursAt(s, sub, i)
  {
    ContainsFrom(s, sub, 0)
  }

  /** `sub` occurs in `s` at some position from `k` on. */
  function ContainsFrom(s: string, sub: string, k: nat): (r: bool)
    ensures r <==> exists i :: k <= i && OccursAt(s, sub, i)
    decreases |s| - k
  {
    if k + |sub| > |s| then
      assert forall i :: k <= i ==> !OccursAt(s, sub, i);
      false
    else if OccursAt(s, sub, k) then true
    else ContainsFrom(s, sub, k + 1)
  }

  /** `string.IsNullOrWhiteSpace` on a non-null string: every character is
      white space (the empty string included). */
  function IsNullOrWhiteSpace(s: string): (r: bool)
    ensures r <==> forall i :: 0 <= i < |s| ==> IsWhiteSpace(s[i])
  {
    WhiteSpaceCount(s, 0) == |s|
  }

  /** The length of the white-space run of `s` that starts at `k`. */
  function WhiteSpaceCount(s: string, k: nat): (m: nat)
    requires k <= |s|
    ensures k + m <= |s|
    ensures forall i :: k <= i < k + m ==> IsWhiteSpace(s[i])
    ensures k + m == |s| || !IsWhiteSpace(s[k + m])
    decreases |s| - k
  {
    if k < |s| && IsWhiteSpace(s[k]) then 1 + WhiteSpaceCount(s, k + 1) else 0
  }

  /** `s.TrimStart()`: drops the leading white space, and nothing else. */
  function TrimStart(s: string): (r: string)
    ensures |r| <= |s| && r == s[|s| - |r|..]
    ensures forall i :: 0 <= i < |s| - |r| ==> IsWhiteSpace(s[i])
    ensures r == [] || !IsWhiteSpace(r[0])
  {
    s[WhiteSpaceCount(s, 0)..]
  }

  // ---------------------------------------------------------------------
  // Decimal numbers

  const Int32Min: int := -0x8000_0000
  const Int32Max: int := 0x7FFF_FFFF

  predicate IsAsciiDigit(c: char) {
    '0' <= c <= '9'
  }

  function DigitChar(d: nat): (c: char)
    requires d < 10
    ensures IsAsciiDigit(c)
  {
    (('0' as int) + d) as char
  }

  function DigitValue(c: char): (d: nat)
    requires IsAsciiDigit(c)
    ensures d < 10 && DigitChar(d) == c
  {
    (c as int) - ('0' as int)
  }

  /** `n.ToString()` for a non-negative `int`: its decimal digits with no
      leading zero. */
  function NatToString(n: nat): (s: string)
    ensures |s| > 0 && forall i :: 0 <= i < |s| ==> IsAsciiDigit(s[i])
    ensures |s| > 1 ==> s[0] != '0'
  {
    if n < 10 then [DigitChar(n)]
    else
      var h := NatToString(n / 10);
      assert forall i :: 0 <= i < |h| ==> (h + [DigitChar(n % 10)])[i] == h[i];
      h + [DigitChar(n % 10)]
  }

  /** The value of a run of ASCII digits, most significant first. */
  function DigitsValue(s: string): nat
    requires forall i :: 0 <= i < |s| ==> IsAsciiDigit(s[i])
  {
    if |s| == 0 then 0
    else 10 * DigitsValue(s[..|s| - 1]) + DigitValue(s[|s| - 1])
  }

  /** The white space that `int.Parse` skips around a number
      (NumberStyles.Integer allows U+0009..U+000D and U+0020). */
  predicate IsNumberWhite(c: char) {
    ('\t' <= c <= '\r') || c == ' '
  }

  function TrimNumberWhite(s: string): (r: string)
    ensures |r| <= |s|
    decreases |s|
  {
    if |s| > 0 && IsNumberWhite(s[0]) then TrimNumberWhite(s[1..])
    else if |s| > 0 && IsNumberWhite(s[|s| - 1]) then TrimNumberWhite(s[..|s| - 1])
    else s
  }

  /** The text without its run of trailing NUL characters. */
  function DropTrailingNuls(s: string): (r: string)
    ensures |r| <= |s| && r == s[..|r|]
    ensures forall i :: |r| <= i < |s| ==> s[i] == '\0'
    ensures |r| == 0 || r[|r| - 1] != '\0'
  {
    if |s| > 0 && s[|s| - 1] == '\0' then DropTrailingNuls(s[..|s| - 1]) else s
  }

  /** `int.Parse(s)`: optional surrounding white space, an optional sign,
      one or more ASCII digits, and a value that fits in 32 bits; `None`
      where the program would throw a FormatException or OverflowException.
      Like the .NET parser, it also accepts NUL characters at the very end,
      after the digits and any trailing white space. */
  function ParseInt32(s: string): (r: Option<int>)
    ensures r.Some? ==> Int32Min <= r.value <= Int32Max
  {
    var t := TrimNumberWhite(DropTrailingNuls(s));
    var neg := |t| > 0 && t[0] == '-';
    var start := if |t| > 0 && (t[0] == '-' || t[0] == '+') then 1 else 0;
    if |t| <= start || !(forall i :: start <= i < |t| ==> IsAsciiDigit(t[i])) then None
    else
      var body := t[start..];
      assert forall j :: 0 <= j < |body| ==> body[j] == t[start + j];
      var v: int := if neg then 0 - DigitsValue(body) as int else DigitsValue(body);
      if Int32Min <= v <= Int32Max then Some(v) else None
  }

  /** NUL characters are accepted only at the very end: after the digits
      and the trailing white space, but not before that white space. */
  lemma ParseTrailingNuls()
    ensures ParseInt32("1\0") == Some(1)
    ensures ParseInt32("1 \0\0") == Some(1)
    ensures ParseInt32("1\0 ") == None
  {
    assert DropTrailingNuls("1\0") == "1" by {
      assert "1\0"[..1] == "1";
    }
    ParseOne("1\0");
    assert DropTrailingNuls("1 \0\0") == "1 " by {
      assert "1 \0\0"[..3] == "1 \0" && "1 \0"[..2] == "1 ";
    }
    assert TrimNumberWhite("1 ") == "1" by {
      assert "1 "[..1] == "1";
    }
    ParseOne("1 \0\0");
    var u := "1\0 ";
    assert DropTrailingNuls(u) == u;
    assert TrimNumberWhite(u) == "1\0" by {
      assert u[..2] == "1\0";
    }
    ParseNoDigit(u);
  }

  /** A text that trims down to the digit 1 parses to 1. */
  lemma ParseOne(s: string)
    requires TrimNumberWhite(DropTrailingNuls(s)) == "1"
    ensures ParseInt32(s) == Some(1)
  {
    assert IsAsciiDigit("1"[0]) && DigitsValue("1") == 1;
  }

  /** A text that trims down to a digit and a NUL does not parse. */
  lemma ParseNoDigit(s: string)
    requires TrimNumberWhite(DropTrailingNuls(s)) == "1\0"
    ensures ParseInt32(s) == None
  {
    assert !IsAsciiDigit("1\0"[1]);
  }

  lemma {:induction false} DigitsOfNatToString(n: nat)
    ensures DigitsValue(NatToString(n)) == n
  {
    if n >= 10 {
      var h := NatToString(n / 10);
      DigitsOfNatToString(n / 10);
      assert (h + [DigitChar(n % 10)])[..|h|] == h;
    }
  }

  /** Formatting a key number and parsing it back gives the number:
      `int.Parse(n.ToString()) == n` for every `n` that fits in an `int`. */
  lemma ParseInt32OfNatToString(n: nat)
    requires n <= Int32Max
    ensures ParseInt32(NatToString(n)) == Some(n)
  {
    var s := NatToString(n);
    assert DropTrailingNuls(s) == s;
    assert TrimNumberWhite(s) == s;
    DigitsOfNatToString(n);
  }

  // ---------------------------------------------------------------------
  // Line joining and splitting

  /** The lines joined with '\n' in between (the `text += '\n' + line`
      accumulation of Externalize). */
  function Join(xs: seq<string>): string
    requires |xs| > 0
  {
    if |xs| == 1 then xs[0] else xs[0] + "\n" + Join(xs[1..])
  }

  /** `s.Split('\n')`: the pieces between newlines; always at least one. */
  function Split(s: string): (r: seq<string>)
    ensures |r| >= 1
  {
    if |s| == 0 then [""]
    else if s[0] == '\n' then [""] + Split(s[1..])
    else
      var t := Split(s[1..]);
      [[s[0]] + t[0]] + t[1..]
  }

  /** `s.Replace("\\n", "\n")`: every backslash-n pair becomes a newline,
      scanning left to right without overlap. */
  function ReplaceEscapes(s: string): (r: string)
    ensures |r| <= |s|
  {
    if |s| < 2 then s
    else if s[0] == '\\' && s[1] == 'n' then "\n" + ReplaceEscapes(s[2..])
    else [s[0]] + ReplaceEscapes(s[1..])
  }

  /** `s` holds no backslash immediately followed by the letter n. */
  predicate NoEscape(s: string) {
    forall i :: 0 <= i < |s| - 1 ==> !(s[i] == '\\' && s[i + 1] == 'n')
  }

  lemma {:induction false} JoinAppend(xs: seq<string>, x: string)
    requires |xs| > 0
    ensures Join(xs + [x]) == Join(xs) + "\n" + x
  {
    if |xs| > 1 {
      assert (xs + [x])[1..] == xs[1..] + [x];
      JoinAppend(xs[1..], x);
    }
  }

  /** Splitting a joined text gives the lines back as long as no line holds
      a newline of its own. */
  lemma {:induction false} SplitJoin(xs: seq<string>)
    requires |xs| > 0
    requires forall i :: 0 <= i < |xs| ==> '\n' !in xs[i]
    ensures Split(Join(xs)) == xs
  {
    SplitNoNewline(xs[0]);
    if |xs| > 1 {
      SplitJoin(xs[1..]);
      SplitConcat(xs[0], Join(xs[1..]));
    }
  }

  lemma {:induction false} SplitNoNewline(s: string)
    requires '\n' !in s
    ensures Split(s) == [s]
  {
    if |s| > 0 {
      SplitNoNewline(s[1..]);
      assert [s[0]] + s[1..] == s;
    }
  }

  lemma {:induction false} SplitConcat(a: string, b: string)
    ensures Split(a + "\n" + b) == Split(a) + Split(b)
  {
    if |a| == 0 {
      assert a + "\n" + b == "\n" + b;
      assert ("\n" + b)[1..] == b;
    } else {
      assert (a + "\n" + b)[1..] == a[1..] + "\n" + b;
      SplitConcat(a[1..], b);
    }
  }

  /** Joining the pieces of a split gives the text back. */
  lemma {:induction false} JoinSplit(s: string)
    ensures Join(Split(s)) == s
  {
    if |s| > 0 {
      JoinSplit(s[1..]);
      var t := Split(s[1..]);
      if s[0] == '\n' {
        assert ([""] + t)[1..] == t;
      } else if |t| > 1 {
        assert ([[s[0]] + t[0]] + t[1..])[1..] == t[1..];
      }
    }
  }

  lemma {:induction false} ReplaceEscapesNoEscape(s: string)
    requires NoEscape(s)
    ensures ReplaceEscapes(s) == s
  {
    if |s| >= 2 {
      assert NoEscape(s[1..]) by {
        forall i | 0 <= i < |s[1..]| - 1 ensures !(s[1..][i] == '\\' && s[1..][i + 1] == 'n') {
          assert s[1..][i] == s[i + 1] && s[1..][i + 1] == s[i + 2];
        }
      }
      ReplaceEscapesNoEscape(s[1..]);
    }
  }

  /** A join of lines that hold no newline and no backslash-n holds no
      backslash-n either: a backslash at the end of one line is followed by
      the newline, not by the letter n. */
  lemma {:induction false} JoinNoEscape(xs: seq<string>)
    requires |xs| > 0
    requires forall i :: 0 <= i < |xs| ==> NoEscape(xs[i])
    ensures NoEscape(Join(xs))
  {
    if |xs| > 1 {
      JoinNoEscape(xs[1..]);
      var a, b := xs[0], Join(xs[1..]);
      var j := a + "\n" + b;
      forall i | 0 <= i < |j| - 1 ensures !(j[i] == '\\' && j[i + 1] == 'n') {
        if i < |a| - 1 {
          assert j[i] == a[i] && j[i + 1] == a[i + 1];
        } else if i == |a| - 1 {
          assert j[i + 1] == '\n';
        } else if i == |a| {
          assert j[i] == '\n';
        } else {
          assert j[i] == b[i - |a| - 1] && j[i + 1] == b[i - |a|];
        }
      }
    }
  }
}
