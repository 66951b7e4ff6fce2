/** The line classifier: every raw script line gets a kind by a fixed
    priority table (TenkiConv/Program.cs:467-481, enum at 633-635). */
module Classifier {
  import opened Strings
  import Patterns

  datatype LineType = None | Text | TextContinuation | Speaker | Command | Section

  /** Rule 1: the section marker "***" opens the line. */
  ghost predicate IsSectionLine(line: string) {
    |line| >= 3 && line[0] == '*' && line[1] == '*' && line[2] == '*'
  }

  /** Rule 2: the line is blank, white space only, or a "//" comment after
      leading white space. */
  ghost predicate IsBlankOrComment(line: string) {
    (forall i :: 0 <= i < |line| ==> IsWhiteSpace(line[i])) || IsCommentLine(line)
  }

  /** A "//" that only white space precedes. */
  ghost predicate IsCommentLine(line: string) {
    exists k :: 0 <= k < |line| - 1 && SlashesAt(line, k) && LeadingWhiteSpace(line, k)
  }

  predicate SlashesAt(line: string, k: int)
    requires 0 <= k < |line| - 1
  {
    line[k] == '/' && line[k + 1] == '/'
  }

  ghost predicate LeadingWhiteSpace(line: string, k: int)
    requires 0 <= k <= |line|
  {
    forall i :: 0 <= i < k ==> IsWhiteSpace(line[i])
  }

  /** Rule 3: an underscore or a "//" anywhere in the line. */
  ghost predicate HasCommandMarker(line: string) {
    '_' in line || exists i :: 0 <= i < |line| - 1 && SlashesAt(line, i)
  }

  /** Rule 4: the speaker placeholder "@N" opens the line, or the line is a
      display name followed by a full-width four-digit id tag. */
  ghost predicate IsSpeakerLine(line: string) {
    (|line| >= 2 && line[0] == '@' && line[1] == 'N') || Patterns.NameMatches(line)
  }

  /** The kind of one raw line. The first rule that applies decides; rule 5
      makes everything else dialogue text. A continuation is never decided
      here: the parser makes one out of a Text line. */
  function GetLineType(line: string): (r: LineType)
    ensures r != TextContinuation
  {
    if StartsWith(line, "***") then Section
    else if IsNullOrWhiteSpace(line) || StartsWith(TrimStart(line), "//") then LineType.None
    else if '_' in line || Contains(line, "//") then Command
    else if StartsWith(line, "@N") || Patterns.MatchName(line).Some? then Speaker
    else Text
  }

  /** GetLineType follows the priority table: each kind is chosen exactly
      when its rule applies and no earlier rule does. */
  lemma GetLineTypeRules(line: string)
    ensures var r := GetLineType(line);
      && (r == Section <==> IsSectionLine(line))
      && (r == LineType.None <==> !IsSectionLine(line) && IsBlankOrComment(line))
      && (r == Command <==> !IsSectionLine(line) && !IsBlankOrComment(line) && HasCommandMarker(line))
      && (r == Speaker <==>
            !IsSectionLine(line) && !IsBlankOrComment(line) && !HasCommandMarker(line) && IsSpeakerLine(line))
      && (r == Text <==>
            !IsSectionLine(line) && !IsBlankOrComment(line) && !HasCommandMarker(line) && !IsSpeakerLine(line))
  {
    RulesAgree(line);
  }

  /** The library calls GetLineType makes decide the declarative rules. */
  lemma RulesAgree(line: string)
    ensures StartsWith(line, "***") == IsSectionLine(line)
    ensures (IsNullOrWhiteSpace(line) || StartsWith(TrimStart(line), "//")) == IsBlankOrComment(line)
    ensures ('_' in line || Contains(line, "//")) == HasCommandMarker(line)
    ensures (StartsWith(line, "@N") || Patterns.MatchName(line).Some?) == IsSpeakerLine(line)
  {
    assert StartsWith(line, "***") == IsSectionLine(line) by { PrefixChars(line, "***"); }
    assert (IsNullOrWhiteSpace(line) || StartsWith(TrimStart(line), "//")) == IsBlankOrComment(line) by {
      CommentAfterTrim(line);
    }
    assert ('_' in line || Contains(line, "//")) == HasCommandMarker(line) by { SlashesContained(line); }
    assert (StartsWith(line, "@N") || Patterns.MatchName(line).Some?) == IsSpeakerLine(line) by {
      PrefixChars(line, "@N");
    }
  }

  lemma PrefixChars(s: string, p: string)
    ensures StartsWith(s, p) <==> |p| <= |s| && forall i :: 0 <= i < |p| ==> s[i] == p[i]
  {
    if |p| <= |s| && forall i :: 0 <= i < |p| ==> s[i] == p[i] {
      assert s[..|p|] == p;
    }
  }

  /** `line.TrimStart().StartsWith("//")` holds exactly for a "//" that only
      white space precedes. */
  lemma CommentAfterTrim(line: string)
    ensures StartsWith(TrimStart(line), "//") <==> IsCommentLine(line)
  {
    var t := TrimStart(line);
    var k0 := |line| - |t|;
    PrefixChars(t, "//");
    if StartsWith(t, "//") {
      assert t[0] == line[k0] && t[1] == line[k0 + 1];
      assert SlashesAt(line, k0) && LeadingWhiteSpace(line, k0);
    }
    if IsCommentLine(line) {
      var k :| 0 <= k < |line| - 1 && SlashesAt(line, k) && LeadingWhiteSpace(line, k);
      assert !IsWhiteSpace(line[k]);
      assert k0 < |line| ==> t[0] == line[k0];
      assert k == k0;
      assert t[0] == line[k0] && t[1] == line[k0 + 1];
    }
  }

  /** `line.Contains("//")` is a "//" anywhere in the line. */
  lemma SlashesContained(line: string)
    ensures Contains(line, "//") <==> exists i :: 0 <= i < |line| - 1 && SlashesAt(line, i)
  {
    forall i ensures OccursAt(line, "//", i) <==> (0 <= i < |line| - 1 && SlashesAt(line, i)) {
      if 0 <= i < |line| - 1 {
        assert "//"[0] == '/' && "//"[1] == '/';
      }
    }
  }
}
