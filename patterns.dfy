/** Hand-written matchers for the two regular expressions of the script
    converter (TenkiConv/Program.cs:103-104):

      SectionPattern  ^\*\*\*S[SC]_(?<sectionName>\w\d+_\d+)_
      NamePattern     ^(?<name>.*?)\s*（(?<id>[０-９]{4})）

    Each matcher is a search function whose contract ties it to a
    declarative statement of what the pattern accepts. */
module Patterns {
  import opened Wrappers
  import opened Strings

  const FullWidthOpen: char := '\U{FF08}'
  const FullWidthClose: char := '\U{FF09}'

  /** The class [０-９] of NamePattern: U+FF10..U+FF19. */
  predicate IsFullWidthDigit(c: char) {
    '\U{FF10}' <= c <= '\U{FF19}'
  }

  /** `\d`: ASCII and full-width decimal digits. */
  predicate IsDecimalDigit(c: char) {
    IsAsciiDigit(c) || IsFullWidthDigit(c)
  }

  /** `\w`, restricted to ASCII letters, '_', the decimal digits above,
      full-width Latin letters, the hiragana and katakana letters and marks
      (leaving out the unassigned U+3097..U+3098, the spacing sound marks
      U+309B..U+309C, the double hyphen U+30A0 and the middle dot U+30FB,
      none of which is a word character) and the CJK unified ideographs
      U+4E00..U+9FA5. Every character accepted here is a word character. */
  predicate IsWordChar(c: char) {
    || ('a' <= c <= 'z')
    || ('A' <= c <= 'Z')
    || c == '_'
    || IsDecimalDigit(c)
    || ('\U{FF21}' <= c <= '\U{FF3A}')
    || ('\U{FF41}' <= c <= '\U{FF5A}')
    || ('\U{3041}' <= c <= '\U{3096}')
    || ('\U{3099}' <= c <= '\U{309A}')
    || ('\U{309D}' <= c <= '\U{309F}')
    || ('\U{30A1}' <= c <= '\U{30FA}')
    || ('\U{30FC}' <= c <= '\U{30FF}')
    || ('\U{4E00}' <= c <= '\U{9FA5}')
  }

  // ---------------------------------------------------------------------
  // NamePattern

  /** The speaker id tag （dddd） starts at position `j` of `s`. */
  predicate IdTagAt(s: string, j: int) {
    && 0 <= j && j + 6 <= |s|
    && s[j] == FullWidthOpen
    && IsFullWidthDigit(s[j + 1]) && IsFullWidthDigit(s[j + 2])
    && IsFullWidthDigit(s[j + 3]) && IsFullWidthDigit(s[j + 4])
    && s[j + 5] == FullWidthClose
  }

  /** Only white space lies in `s[k..j]`. */
  ghost predicate AllWhiteSpace(s: string, k: int, j: int)
    requires 0 <= k <= j <= |s|
  {
    forall i :: k <= i < j ==> IsWhiteSpace(s[i])
  }

  /** NamePattern matches `s` with a name group of length `k`: the name
      (`.*?`) holds no newline, and it is followed by white space (`\s*`)
      and the id tag. */
  ghost predicate NameMatchAt(s: string, k: int) {
    && 0 <= k <= |s|
    && (forall i :: 0 <= i < k ==> s[i] != '\n')
    && exists j :: k <= j <= |s| && AllWhiteSpace(s, k, j) && IdTagAt(s, j)
  }

  /** NamePattern.IsMatch(s). */
  ghost predicate NameMatches(s: string) {
    exists k :: NameMatchAt(s, k)
  }

  /** The length of the run of white space that starts at `k`. */
  function WhiteSpaceRun(s: string, k: nat): (w: nat)
    requires k <= |s|
    ensures k + w <= |s| && AllWhiteSpace(s, k, k + w)
    ensures k + w == |s| || !IsWhiteSpace(s[k + w])
    decreases |s| - k
  {
    if k < |s| && IsWhiteSpace(s[k]) then 1 + WhiteSpaceRun(s, k + 1) else 0
  }

  /** Only the maximal white-space run can be followed by the tag, since
      '（' is not white space: the greedy `\s*` never has to give back. */
  lemma TailAfterRun(s: string, k: nat)
    requires k <= |s|
    ensures (exists j :: k <= j <= |s| && AllWhiteSpace(s, k, j) && IdTagAt(s, j))
        <==> IdTagAt(s, k + WhiteSpaceRun(s, k))
  {
    var w := WhiteSpaceRun(s, k);
    assert AllWhiteSpace(s, k, k + w);
    forall j | k <= j <= |s| && AllWhiteSpace(s, k, j) && IdTagAt(s, j)
      ensures j == k + w
    {
      assert !IsWhiteSpace(s[j]);
    }
  }

  /** The lazy search of `.*?`: the shortest name of length at least `k`. */
  function FindName(s: string, k: nat): (r: Option<nat>)
    requires k <= |s|
    requires forall i :: 0 <= i < k ==> s[i] != '\n'
    ensures r.Some? ==> k <= r.value <= |s| && NameMatchAt(s, r.value)
    ensures r.Some? ==> forall j :: k <= j < r.value ==> !NameMatchAt(s, j)
    ensures r.None? ==> forall j :: k <= j <= |s| ==> !NameMatchAt(s, j)
    decreases |s| - k
  {
    TailAfterRun(s, k);
    if IdTagAt(s, k + WhiteSpaceRun(s, k)) then Some(k)
    else if k == |s| || s[k] == '\n' then None
    else FindName(s, k + 1)
  }

  /** NamePattern.Match(s): the name group of the match, which is the
      shortest prefix of `s` the pattern accepts, or None. */
  function MatchName(s: string): (r: Option<string>)
    ensures r.Some? ==> StartsWith(s, r.value) && NameMatchAt(s, |r.value|)
    ensures r.Some? ==> forall j :: 0 <= j < |r.value| ==> !NameMatchAt(s, j)
    ensures r.None? <==> !NameMatches(s)
  {
    match FindName(s, 0)
    case Some(k) => Some(s[..k])
    case None => None
  }

  // ---------------------------------------------------------------------
  // SectionPattern

  /** The length of the run of `\d` characters that starts at `k`. */
  function DigitRun(s: string, k: nat): (n: nat)
    requires k <= |s|
    ensures k + n <= |s|
    ensures forall i :: k <= i < k + n ==> IsDecimalDigit(s[i])
    ensures k + n == |s| || !IsDecimalDigit(s[k + n])
    decreases |s| - k
  {
    if k < |s| && IsDecimalDigit(s[k]) then 1 + DigitRun(s, k + 1) else 0
  }

  /** SectionPattern matches `s` with digit runs of lengths `a` and `b`:
      "***S", 'S' or 'C', '_', one `\w`, `a` digits, '_', `b` digits, '_'. */
  ghost predicate SectionMatch(s: string, a: int, b: int) {
    && 1 <= a && 1 <= b && 9 + a + b <= |s|
    && s[..4] == "***S" && (s[4] == 'S' || s[4] == 'C') && s[5] == '_'
    && IsWordChar(s[6])
    && (forall i :: 7 <= i < 7 + a ==> IsDecimalDigit(s[i]))
    && s[7 + a] == '_'
    && (forall i :: 8 + a <= i < 8 + a + b ==> IsDecimalDigit(s[i]))
    && s[8 + a + b] == '_'
  }

  /** The fixed part of a section header: "***S", 'S' or 'C', '_' and
      one `\w` character. */
  predicate HeaderStart(s: string) {
    7 <= |s| && s[..4] == "***S" && (s[4] == 'S' || s[4] == 'C') && s[5] == '_' && IsWordChar(s[6])
  }

  /** The match that the maximal digit runs give, if any. */
  predicate MatchWithRuns(s: string)
    requires HeaderStart(s)
  {
    var a := DigitRun(s, 7);
    a >= 1 && 7 + a < |s| && s[7 + a] == '_' &&
    var b := DigitRun(s, 8 + a);
    b >= 1 && 8 + a + b < |s| && s[8 + a + b] == '_'
  }

  /** SectionPattern.Match(s).Groups["sectionName"]: the scene id after the
      "***SS_" or "***SC_" marker, or None when the header does not match. */
  function SectionName(s: string): (r: Option<string>)
    ensures r.Some? <==> exists a, b :: SectionMatch(s, a, b)
    ensures r.Some? ==> exists a, b :: SectionMatch(s, a, b) && r.value == s[6..8 + a + b]
  {
    SectionMatchUsesRuns(s);
    if HeaderStart(s) && MatchWithRuns(s) then
      var a := DigitRun(s, 7);
      var b := DigitRun(s, 8 + a);
      assert SectionMatch(s, a, b);
      Some(s[6..8 + a + b])
    else
      None
  }

  /** Every match of SectionPattern is the one of the maximal digit runs:
      '_' is not a digit, so the greedy `\d+` never has to give back. */
  lemma SectionMatchUsesRuns(s: string)
    ensures (exists a, b :: SectionMatch(s, a, b)) ==> HeaderStart(s) && MatchWithRuns(s)
  {
    forall a, b | SectionMatch(s, a, b) ensures HeaderStart(s) && MatchWithRuns(s) {
      SectionRunsAreMaximal(s, a, b);
    }
  }

  lemma SectionRunsAreMaximal(s: string, a: int, b: int)
    requires SectionMatch(s, a, b)
    ensures a == DigitRun(s, 7) && b == DigitRun(s, 8 + a)
  {
    var a' := DigitRun(s, 7);
    assert !IsDecimalDigit(s[7 + a]);
    assert a' <= a;
    var b' := DigitRun(s, 8 + a);
    assert !IsDecimalDigit(s[8 + a + b]);
    assert b' <= b;
  }

  /** A scene id may start with a katakana letter but not with the
      katakana middle dot, which is punctuation. */
  lemma KanaSectionHeaders()
    ensures SectionName("***SS_\U{30A2}1_2_") == Some("\U{30A2}1_2")
    ensures SectionName("***SS_\U{30FB}1_2_") == None
  {
    var s := "***SS_\U{30A2}1_2_";
    assert s[..4] == "***S";
    assert DigitRun(s, 10) == 0 && DigitRun(s, 9) == 1;
    assert DigitRun(s, 8) == 0 && DigitRun(s, 7) == 1;
    assert HeaderStart(s) && MatchWithRuns(s);
    assert s[6..10] == "\U{30A2}1_2";
    var u := "***SS_\U{30FB}1_2_";
    assert !IsWordChar(u[6]);
  }
}
