/** `Script.ChangeText` (TenkiConv/Program.cs:254-304) as a function on
    documents: re-lay out a dialogue command for `|text|` lines, write
    `text[0]` into its source line and `text[1..]` into its continuation
    lines, and set its record's Field14 to the new line count (one more when
    the command has a speaker line). */
module TextChange {
  import opened Wrappers
  import opened Classifier
  import opened Records
  import opened Document
  import opened Relayout

  /** The value ChangeText stores in Field14 for `n` dialogue lines. */
  function LineCount(c: ScriptCommand, n: nat): (r: nat)
    requires c.TextCommand?
    ensures c.nameLine.Some? ==> r == n + 1
    ensures c.nameLine.None? ==> r == n
  {
    if c.nameLine.Some? then n + 1 else n
  }

  /** Record `j` of section `s` replaced by `e`. */
  function WithEntry(sections: seq<ScriptSection>, s: nat, j: nat, e: SptEntry): (r: seq<ScriptSection>)
    requires s < |sections| && j < |sections[s].entries|
    ensures |r| == |sections|
    ensures forall t :: 0 <= t < |r| ==>
      r[t].path == sections[t].path && r[t].commands == sections[t].commands
      && |r[t].entries| == |sections[t].entries|
    ensures forall t, i :: 0 <= t < |r| && 0 <= i < |r[t].entries| ==>
      r[t].entries[i] == if t == s && i == j then e else sections[t].entries[i]
  {
    sections[s := sections[s].(entries := sections[s].entries[j := e])]
  }

  /** The document after `ChangeText(command k, text)`: first the lines
      are re-laid out, then the texts and the record are written. */
  function ChangeText(d: Doc, k: nat, text: seq<string>): Doc
    requires WellFormed(d) && k < |d.commands| && d.commands[k].TextCommand? && |text| > 0
    requires HasEntry(d, k)
  {
    RelaidShape(d, k, |text|);
    WriteText(Relaid(d, k, |text|), k, text)
  }

  /** The re-layout step of ChangeText. The program finds the source line
      with `Lines.IndexOf`; in a well-formed document that is the position
      its LineNumber records. */
  function Relaid(d: Doc, k: nat, n: nat): Doc
    requires WellFormed(d) && k < |d.commands| && d.commands[k].TextCommand? && n > 0
  {
    var p := IndexOf(d.lines, d.commands[k].sourceLine);
    SourceFound(d, k);
    WithLayout(d, k, Relayout.Relayout(d, k, p, n))
  }

  /** The writing step: `text[0]` into the source line, `text[j]` into
      continuation j-1, and the line count into Field14. */
  function WriteText(d: Doc, k: nat, text: seq<string>): Doc
    requires Sane(d) && k < |d.commands| && d.commands[k].TextCommand?
    requires |text| == |d.commands[k].continuationLines| + 1 && HasEntry(d, k)
  {
    var c := d.commands[k];
    assert CommandRefsOk(d, k);
    var e := d.sections[c.section].entries[c.commandIndex];
    Doc(SetTexts(d.pool, [c.sourceLine] + c.continuationLines, text, 0), d.lines, d.commands,
        WithEntry(d.sections, c.section, c.commandIndex, e.(field14 := LineCount(c, |text|))))
  }

  /** The re-layout keeps the document well formed. */
  lemma RelaidWellFormed(d: Doc, k: nat, n: nat)
    requires WellFormed(d) && k < |d.commands| && d.commands[k].TextCommand? && n > 0
    ensures WellFormed(Relaid(d, k, n))
  {
    IndexOfSource(d, k);
    RelayoutWellFormed(d, k, n);
  }

  /** What the writing step needs of the re-laid-out document. */
  lemma RelaidShape(d: Doc, k: nat, n: nat)
    requires WellFormed(d) && k < |d.commands| && d.commands[k].TextCommand? && n > 0
    ensures var d1 := Relaid(d, k, n);
      && Sane(d1) && k < |d1.commands| && d1.commands[k].TextCommand?
      && |d1.commands[k].continuationLines| == n - 1
      && (HasEntry(d1, k) <==> HasEntry(d, k))
  {
    RelaidLines(d, k, n);
  }

  /** The re-layout moves each line as ChangeText promises; texts are not
      touched yet. */
  lemma RelaidLines(d: Doc, k: nat, n: nat)
    requires WellFormed(d) && k < |d.commands| && d.commands[k].TextCommand? && n > 0
    ensures var d1 := Relaid(d, k, n);
      var c := d.commands[k];
      var p := Position(d, c.sourceLine);
      var m := |c.continuationLines|;
      && Numbered(d1)
      && 0 <= p && p + m < |d.lines|
      && |d1.lines| == |d.lines| + n - (m + 1)
      && d1.sections == d.sections
      && |d1.commands[k].continuationLines| == n - 1
      && d1.commands == d.commands[k := c.(continuationLines := d1.commands[k].continuationLines)]
      && d1.lines[p] == c.sourceLine
      && (forall j :: 0 <= j < n - 1 ==> d1.lines[p + 1 + j] == d1.commands[k].continuationLines[j])
      && KeptBefore(d, d1, p + 1)
      && FreeContinuations(d1, p, n)
      && MovedAfter(d, d1, p, m, n)
  {
    RelaidFrame(d, k, n);
    RelaidViews(d, k, n);
  }

  /** The sizes, the records and the run of the re-laid-out document. */
  lemma RelaidFrame(d: Doc, k: nat, n: nat)
    requires WellFormed(d) && k < |d.commands| && d.commands[k].TextCommand? && n > 0
    ensures var d1 := Relaid(d, k, n);
      var c := d.commands[k];
      var p := Position(d, c.sourceLine);
      var m := |c.continuationLines|;
      && Numbered(d1)
      && 0 <= p && p + m < |d.lines|
      && |d1.lines| == |d.lines| + n - (m + 1)
      && d1.sections == d.sections
      && |d1.commands[k].continuationLines| == n - 1
      && d1.commands == d.commands[k := c.(continuationLines := d1.commands[k].continuationLines)]
      && d1.lines[p] == c.sourceLine
      && (forall j :: 0 <= j < n - 1 ==> d1.lines[p + 1 + j] == d1.commands[k].continuationLines[j])
  {
    var c := d.commands[k];
    var p := Position(d, c.sourceLine);
    IndexOfSource(d, k);
    RelayoutWellFormed(d, k, n);
    RunBounds(d, k, p);
    RunFacts(d, k, p);
    var lay := Relayout.Relayout(d, k, p, n);
    assert Relaid(d, k, n) == WithLayout(d, k, lay);
    WellFormedNumbered(WithLayout(d, k, lay));
  }

  /** Where each line of the document went. */
  lemma RelaidViews(d: Doc, k: nat, n: nat)
    requires WellFormed(d) && k < |d.commands| && d.commands[k].TextCommand? && n > 0
    ensures var d1 := Relaid(d, k, n);
      var c := d.commands[k];
      var p := Position(d, c.sourceLine);
      var m := |c.continuationLines|;
      && 0 <= p && p + m < |d.lines|
      && Sane(d1) && |d1.lines| == |d.lines| + n - (m + 1)
      && KeptBefore(d, d1, p + 1)
      && FreeContinuations(d1, p, n)
      && MovedAfter(d, d1, p, m, n)
  {
    var c := d.commands[k];
    var p := Position(d, c.sourceLine);
    IndexOfSource(d, k);
    RelayoutWellFormed(d, k, n);
    RunBounds(d, k, p);
    RunFacts(d, k, p);
    var lay := Relayout.Relayout(d, k, p, n);
    assert Relaid(d, k, n) == WithLayout(d, k, lay);
    ReshapedMoves(d, k, p, lay.conts, WithLayout(d, k, lay), n);
  }

  /** ReshapedViews, stated with the predicates ChangeText's proofs use. */
  lemma ReshapedMoves(d: Doc, k: nat, p: nat, cs: seq<nat>, d1: Doc, n: nat)
    requires Sane(d) && k < |d.commands| && d.commands[k].TextCommand? && RunShape(d, k, p)
    requires Reshaped(d, k, p, cs, d1) && Sane(d1) && n == |cs| + 1
    requires forall id :: 0 <= id < |d.pool| ==> d1.pool[id] == d.pool[id].(lineNumber := d1.pool[id].lineNumber)
    ensures var m := |d.commands[k].continuationLines|;
      && p + m < |d.lines| && |d1.lines| == |d.lines| + n - (m + 1)
      && KeptBefore(d, d1, p + 1)
      && FreeContinuations(d1, p, n)
      && MovedAfter(d, d1, p, m, n)
  {
    ReshapedViews(d, k, p, cs, d1, n);
    var m := |d.commands[k].continuationLines|;
    forall i | 0 <= i < p + 1 ensures d1.lines[i] == d.lines[i] && Line(d1, i) == Line(d, i) {
      assert i <= p;
    }
    forall o | p + m + 1 <= o < |d.lines|
      ensures d1.lines[o + n - (m + 1)] == d.lines[o] && Line(d1, o + n - (m + 1)) == Moved(Line(d, o), n - (m + 1))
    {
      assert Line(d, o) == d.pool[d.lines[o]];
    }
  }

  /** Writing texts into the lines at positions p .. p+|ids|-1 of a
      document numbered by position changes those texts and nothing else. */
  lemma TextsWritten(d: Doc, p: nat, ids: seq<nat>, text: seq<string>)
    requires Numbered(d) && p + |ids| <= |d.lines| && |ids| == |text|
    requires forall j :: 0 <= j < |ids| ==> ids[j] == d.lines[p + j]
    ensures forall j :: 0 <= j < |ids| ==> ids[j] < |d.pool|
    ensures var P := SetTexts(d.pool, ids, text, 0);
      && (forall id :: 0 <= id < |d.pool| ==> P[id] == d.pool[id].(text := P[id].text))
      && (forall j :: 0 <= j < |ids| ==> P[ids[j]].text == text[j])
      && (forall i :: 0 <= i < |d.lines| && !(p <= i < p + |ids|) ==> P[d.lines[i]] == d.pool[d.lines[i]])
      && (forall id :: 0 <= id < |d.pool| && id !in ids ==> P[id] == d.pool[id])
  {
    assert DistinctFrom(ids, 0) by {
      forall a, b | 0 <= a < b < |ids| ensures ids[a] != ids[b] {
        assert d.pool[d.lines[p + a]].lineNumber == p + a && d.pool[d.lines[p + b]].lineNumber == p + b;
      }
    }
    SetTextsEffect(d.pool, ids, text, 0);
    forall i | 0 <= i < |d.lines| && !(p <= i < p + |ids|)
      ensures forall j :: 0 <= j < |ids| ==> ids[j] != d.lines[i]
    {
      forall j | 0 <= j < |ids| ensures ids[j] != d.lines[i] {
        assert d.pool[d.lines[p + j]].lineNumber == p + j && d.pool[d.lines[i]].lineNumber == i;
      }
    }
  }

  /** The writing step changes the texts of the command's lines and one
      record's Field14, and nothing else. */
  lemma WriteTextLines(d: Doc, k: nat, text: seq<string>, p: nat)
    requires Numbered(d) && k < |d.commands| && d.commands[k].TextCommand?
    requires |text| == |d.commands[k].continuationLines| + 1 && HasEntry(d, k)
    requires p + |text| <= |d.lines| && d.lines[p] == d.commands[k].sourceLine
    requires forall j :: 0 <= j < |text| - 1 ==> d.lines[p + 1 + j] == d.commands[k].continuationLines[j]
    ensures var d' := WriteText(d, k, text);
      && SameShape(d, d') && Sane(d')
      && TextsAt(d, d', p, text)
  {
    var c := d.commands[k];
    var ids := [c.sourceLine] + c.continuationLines;
    assert forall j :: 0 <= j < |ids| ==> ids[j] == d.lines[p + j];
    TextsWritten(d, p, ids, text);
    SameShapeSane(d, WriteText(d, k, text));
  }

  lemma WriteTextWellFormed(d: Doc, k: nat, text: seq<string>)
    requires WellFormed(d) && k < |d.commands| && d.commands[k].TextCommand?
    requires |text| == |d.commands[k].continuationLines| + 1 && HasEntry(d, k)
    ensures WellFormed(WriteText(d, k, text))
  {
    var c := d.commands[k];
    assert CommandOk(d, k) && CommandRefsOk(d, k) && LayoutOk(d, k);
    WellFormedNumbered(d);
    WriteTextLines(d, k, text, Position(d, c.sourceLine));
    SameShapeWellFormed(d, WriteText(d, k, text));
  }

  /** ChangeText keeps the document well formed. */
  lemma ChangeTextWellFormed(d: Doc, k: nat, text: seq<string>)
    requires WellFormed(d) && k < |d.commands| && d.commands[k].TextCommand? && |text| > 0
    requires HasEntry(d, k)
    ensures WellFormed(ChangeText(d, k, text))
  {
    RelaidLines(d, k, |text|);
    RelaidWellFormed(d, k, |text|);
    WriteTextWellFormed(Relaid(d, k, |text|), k, text);
  }

  /** The command's own lines and those before it: the lines before the
      command are the same objects, unchanged; the command's lines carry the
      new texts, the first one as dialogue and the others as continuations
      that belong to no command. */
  lemma ChangeTextLines(d: Doc, k: nat, text: seq<string>)
    requires WellFormed(d) && k < |d.commands| && d.commands[k].TextCommand? && |text| > 0
    requires HasEntry(d, k)
    ensures var d' := ChangeText(d, k, text);
      var c := d.commands[k];
      var p := Position(d, c.sourceLine);
      var m := |c.continuationLines|;
      var n := |text|;
      && Sane(d') && 0 <= p && p + m < |d.lines|
      && |d'.lines| == |d.lines| + n - (m + 1)
      && KeptBefore(d, d', p)
      && d'.lines[p] == c.sourceLine && Line(d', p) == Line(d, p).(text := text[0])
      && ContinuationTexts(d', p, text)
  {
    var c := d.commands[k];
    var p := Position(d, c.sourceLine);
    var n := |text|;
    RelaidLines(d, k, n);
    var d1 := Relaid(d, k, n);
    WriteTextLines(d1, k, text, p);
    var d2 := WriteText(d1, k, text);
    assert ChangeText(d, k, text) == d2;
    RunComposed(d, d1, d2, p, text);
  }

  /** The lines after the command: every line after the old run is the same
      object, moved by the difference in line count, with nothing but its
      LineNumber changed. */
  lemma ChangeTextAfter(d: Doc, k: nat, text: seq<string>)
    requires WellFormed(d) && k < |d.commands| && d.commands[k].TextCommand? && |text| > 0
    requires HasEntry(d, k)
    ensures var d' := ChangeText(d, k, text);
      var c := d.commands[k];
      var p := Position(d, c.sourceLine);
      var m := |c.continuationLines|;
      var n := |text|;
      && Sane(d') && 0 <= p && p + m < |d.lines|
      && |d'.lines| == |d.lines| + n - (m + 1)
      && MovedAfter(d, d', p, m, n)
  {
    var c := d.commands[k];
    var p := Position(d, c.sourceLine);
    var m := |c.continuationLines|;
    var n := |text|;
    RelaidLines(d, k, n);
    var d1 := Relaid(d, k, n);
    WriteTextLines(d1, k, text, p);
    var d2 := WriteText(d1, k, text);
    assert ChangeText(d, k, text) == d2;
    AfterComposed(d, d1, d2, p, m, text);
  }

  /** The first `q` positions of `d2` hold the same objects as in `d`,
      unchanged. */
  ghost predicate KeptBefore(d: Doc, d2: Doc, q: nat)
    requires Sane(d) && Sane(d2) && q <= |d.lines| && q <= |d2.lines|
  {
    forall i {:trigger d.lines[i]} :: 0 <= i < q ==> d2.lines[i] == d.lines[i] && Line(d2, i) == Line(d, i)
  }

  /** Positions `p + 1` .. `p + n - 1` hold continuations of no command. */
  ghost predicate FreeContinuations(d: Doc, p: nat, n: nat)
    requires Sane(d) && p + n <= |d.lines|
  {
    forall i :: p < i < p + n ==> Kind(d, i) == TextContinuation && Line(d, i).command.None?
  }

  /** `d2` is `d1` with `text` written into the lines at positions
      `p` .. `p + |text| - 1`. */
  ghost predicate TextsAt(d1: Doc, d2: Doc, p: nat, text: seq<string>)
    requires Sane(d1) && Sane(d2) && |d2.lines| == |d1.lines| && p + |text| <= |d1.lines|
  {
    && (forall i :: 0 <= i < |d1.lines| && !(p <= i < p + |text|) ==> Line(d2, i) == Line(d1, i))
    && (forall j :: 0 <= j < |text| ==> Line(d2, p + j) == Line(d1, p + j).(text := text[j]))
  }

  /** Position `i` in `p + 1` .. `p + |text| - 1` holds a continuation of no
      command, numbered `i`, with text `text[i - p]`. */
  ghost predicate ContinuationTexts(d: Doc, p: nat, text: seq<string>)
    requires Sane(d) && p + |text| <= |d.lines|
  {
    forall i :: p < i < p + |text| ==> Line(d, i) == ScriptLine(TextContinuation, text[i - p], i, Option.None)
  }

  /** Two steps, the first keeping the lines up to p and making the next
      `|text| - 1` lines continuations of no command, the second writing
      `text` into the lines from p on and leaving the others alone. */
  lemma RunComposed(d: Doc, d1: Doc, d2: Doc, p: nat, text: seq<string>)
    requires Sane(d) && Numbered(d1) && Sane(d2) && d2.lines == d1.lines
    requires 0 < |text| && p < |d.lines| && p + |text| <= |d1.lines|
    requires KeptBefore(d, d1, p + 1) && FreeContinuations(d1, p, |text|) && TextsAt(d1, d2, p, text)
    ensures KeptBefore(d, d2, p)
    ensures Line(d2, p) == Line(d, p).(text := text[0])
    ensures ContinuationTexts(d2, p, text)
  {
    forall i | 0 <= i < p ensures d2.lines[i] == d.lines[i] && Line(d2, i) == Line(d, i) {
      assert Line(d2, i) == Line(d1, i);
    }
    assert Line(d2, p + 0) == Line(d1, p + 0).(text := text[0]);
    forall i | p < i < p + |text| ensures Line(d2, i) == ScriptLine(TextContinuation, text[i - p], i, Option.None) {
      assert Line(d2, p + (i - p)) == Line(d1, p + (i - p)).(text := text[i - p]);
      assert d1.pool[d1.lines[i]].lineNumber == i;
    }
  }

  /** Every line from position `p + m + 1` of `d` on is, in `d2`, the same
      object `n - (m + 1)` positions further on, with its LineNumber moved by
      as much and nothing else changed. */
  ghost predicate MovedAfter(d: Doc, d2: Doc, p: nat, m: nat, n: nat)
    requires Sane(d) && Sane(d2) && |d2.lines| == |d.lines| + n - (m + 1)
  {
    forall o {:trigger d.lines[o]} :: p + m + 1 <= o < |d.lines| ==>
      d2.lines[o + n - (m + 1)] == d.lines[o] && Line(d2, o + n - (m + 1)) == Moved(Line(d, o), n - (m + 1))
  }

  /** Two steps, the first moving the lines after the run and the second
      leaving them alone, move them. */
  lemma AfterComposed(d: Doc, d1: Doc, d2: Doc, p: nat, m: nat, text: seq<string>)
    requires Sane(d) && Sane(d1) && Sane(d2) && d2.lines == d1.lines && p + |text| <= |d1.lines|
    requires |d1.lines| == |d.lines| + |text| - (m + 1) && MovedAfter(d, d1, p, m, |text|)
    requires TextsAt(d1, d2, p, text)
    ensures MovedAfter(d, d2, p, m, |text|)
  {
    var n := |text|;
    forall o | p + m + 1 <= o < |d.lines|
      ensures d2.lines[o + n - (m + 1)] == d.lines[o] && Line(d2, o + n - (m + 1)) == Moved(Line(d, o), n - (m + 1))
    {
      assert Line(d2, o + n - (m + 1)) == Line(d1, o + n - (m + 1));
    }
  }

  /** The texts and kinds of a document whose lines relate to `d`'s as
      ChangeText's result does. */
  lemma ViewsComposed(d: Doc, d2: Doc, p: nat, m: nat, text: seq<string>)
    requires Sane(d) && Sane(d2) && 0 < |text| && p + m < |d.lines|
    requires |d2.lines| == |d.lines| + |text| - (m + 1)
    requires KeptBefore(d, d2, p) && Line(d2, p) == Line(d, p).(text := text[0])
    requires ContinuationTexts(d2, p, text) && MovedAfter(d, d2, p, m, |text|)
    ensures Texts(d2) == Texts(d)[..p] + text + Texts(d)[p + m + 1..]
    ensures Kinds(d2) == Kinds(d)[..p + 1] + seq(|text| - 1, _ => TextContinuation) + Kinds(d)[p + m + 1..]
  {
    var n := |text|;
    var T := Texts(d)[..p] + text + Texts(d)[p + m + 1..];
    var K := Kinds(d)[..p + 1] + seq(n - 1, _ => TextContinuation) + Kinds(d)[p + m + 1..];
    forall i | 0 <= i < |d2.lines| ensures Texts(d2)[i] == T[i] && Kinds(d2)[i] == K[i] {
      if i < p {
        assert d.lines[i] == d2.lines[i];
      } else if i == p {
      } else if i < p + n {
      } else {
        var o := i - n + (m + 1);
        assert d.lines[o] == d2.lines[o + n - (m + 1)];
        assert T[i] == Texts(d)[o] && K[i] == Kinds(d)[o];
      }
    }
  }

  /** The texts ChangeText leaves in `Lines`, as WriteCode would write them:
      the command's old lines give way to `text`, the rest stay. */
  lemma ChangeTextTexts(d: Doc, k: nat, text: seq<string>)
    requires WellFormed(d) && k < |d.commands| && d.commands[k].TextCommand? && |text| > 0
    requires HasEntry(d, k)
    ensures var d' := ChangeText(d, k, text);
      var c := d.commands[k];
      var p := Position(d, c.sourceLine);
      var m := |c.continuationLines|;
      && Sane(d') && 0 <= p && p + m < |d.lines|
      && Texts(d') == Texts(d)[..p] + text + Texts(d)[p + m + 1..]
      && Kinds(d') == Kinds(d)[..p + 1] + seq(|text| - 1, _ => TextContinuation) + Kinds(d)[p + m + 1..]
  {
    var c := d.commands[k];
    ChangeTextLines(d, k, text);
    ChangeTextAfter(d, k, text);
    ViewsComposed(d, ChangeText(d, k, text), Position(d, c.sourceLine), |c.continuationLines|, text);
  }

  /** The command keeps its section, index, source and name line; its
      continuations become the `|text| - 1` lines after the source line.
      Every other command is untouched. */
  lemma ChangeTextCommands(d: Doc, k: nat, text: seq<string>)
    requires WellFormed(d) && k < |d.commands| && d.commands[k].TextCommand? && |text| > 0
    requires HasEntry(d, k)
    ensures var d' := ChangeText(d, k, text);
      var c := d.commands[k];
      var p := Position(d, c.sourceLine);
      && 0 <= p && p + |text| <= |d'.lines|
      && d'.commands == d.commands[k := c.(continuationLines := d'.lines[p + 1..p + |text|])]
  {
    RelaidCommands(d, k, |text|);
    RelaidShape(d, k, |text|);
    var d1 := Relaid(d, k, |text|);
    assert ChangeText(d, k, text) == WriteText(d1, k, text);
  }

  lemma RelaidCommands(d: Doc, k: nat, n: nat)
    requires WellFormed(d) && k < |d.commands| && d.commands[k].TextCommand? && n > 0
    ensures var d1 := Relaid(d, k, n);
      var c := d.commands[k];
      var p := Position(d, c.sourceLine);
      && 0 <= p && p + n <= |d1.lines|
      && d1.commands == d.commands[k := c.(continuationLines := d1.lines[p + 1..p + n])]
  {
    var c := d.commands[k];
    RelaidFrame(d, k, n);
    var d1 := Relaid(d, k, n);
    CommandsComposed(d.commands, d1.commands, k, d1.commands[k].continuationLines, d1.lines, Position(d, c.sourceLine), n);
  }

  /** The command list after both steps, from the facts each step gives. */
  lemma CommandsComposed(cs: seq<ScriptCommand>, cs2: seq<ScriptCommand>, k: nat, conts: seq<nat>,
                         ls: seq<nat>, p: nat, n: nat)
    requires k < |cs| && cs[k].TextCommand? && 0 < n && p + n <= |ls|
    requires cs2 == cs[k := cs[k].(continuationLines := conts)]
    requires |conts| == n - 1 && forall j :: 0 <= j < n - 1 ==> ls[p + 1 + j] == conts[j]
    ensures cs2 == cs[k := cs[k].(continuationLines := ls[p + 1..p + n])]
  {
    assert conts == ls[p + 1..p + n];
  }

  /** Only the command's own record changes, and in it only Field14, which
      becomes the new line count (one more with a speaker line). */
  lemma ChangeTextRecords(d: Doc, k: nat, text: seq<string>)
    requires WellFormed(d) && k < |d.commands| && d.commands[k].TextCommand? && |text| > 0
    requires HasEntry(d, k)
    ensures var d' := ChangeText(d, k, text);
      var c := d.commands[k];
      && |d'.sections| == |d.sections| && c.section < |d.sections|
      && (forall s :: 0 <= s < |d.sections| ==>
            d'.sections[s].path == d.sections[s].path && d'.sections[s].commands == d.sections[s].commands
            && |d'.sections[s].entries| == |d.sections[s].entries|)
      && d'.sections[c.section].entries[c.commandIndex]
         == d.sections[c.section].entries[c.commandIndex].(field14 := LineCount(c, |text|))
      && (forall s, j :: 0 <= s < |d.sections| && 0 <= j < |d.sections[s].entries| && (s != c.section || j != c.commandIndex)
            ==> d'.sections[s].entries[j] == d.sections[s].entries[j])
  {
    var c := d.commands[k];
    var n := |text|;
    assert CommandRefsOk(d, k);
    RelaidLines(d, k, n);
    var d1 := Relaid(d, k, n);
    assert d1.commands[k] == c.(continuationLines := d1.commands[k].continuationLines);
    assert ChangeText(d, k, text) == WriteText(d1, k, text);
    assert LineCount(d1.commands[k], n) == LineCount(c, n);
  }

  /** The re-layout changes no line object's text, kind or command. */
  lemma RelaidPool(d: Doc, k: nat, n: nat)
    requires WellFormed(d) && k < |d.commands| && d.commands[k].TextCommand? && n > 0
    ensures var d1 := Relaid(d, k, n);
      && |d1.pool| >= |d.pool|
      && forall id :: 0 <= id < |d.pool| ==> d1.pool[id] == d.pool[id].(lineNumber := d1.pool[id].lineNumber)
  {
    var p := Position(d, d.commands[k].sourceLine);
    IndexOfSource(d, k);
    RelayoutWellFormed(d, k, n);
    var lay := Relayout.Relayout(d, k, p, n);
    assert Relaid(d, k, n) == WithLayout(d, k, lay);
  }

  /** The writing step changes the texts of the command's lines only. */
  lemma WriteTextPool(d: Doc, k: nat, text: seq<string>, p: nat)
    requires Numbered(d) && k < |d.commands| && d.commands[k].TextCommand?
    requires |text| == |d.commands[k].continuationLines| + 1 && HasEntry(d, k)
    requires p + |text| <= |d.lines| && d.lines[p] == d.commands[k].sourceLine
    requires forall j :: 0 <= j < |text| - 1 ==> d.lines[p + 1 + j] == d.commands[k].continuationLines[j]
    ensures var d' := WriteText(d, k, text);
      && d'.commands == d.commands && |d'.pool| == |d.pool|
      && (forall id :: 0 <= id < |d.pool| ==> d'.pool[id] == d.pool[id].(text := d'.pool[id].text))
      && (forall id :: 0 <= id < |d.pool| && id != d.commands[k].sourceLine && id !in d.commands[k].continuationLines ==>
            d'.pool[id] == d.pool[id])
  {
    var c := d.commands[k];
    var ids := [c.sourceLine] + c.continuationLines;
    assert forall j :: 0 <= j < |ids| ==> ids[j] == d.lines[p + j];
    TextsWritten(d, p, ids, text);
    assert forall id :: id != c.sourceLine && id !in c.continuationLines ==> id !in ids;
  }

  /** ChangeText keeps the kind and command of every line object, and
      writes the texts of the command's new source and continuation lines
      only. */
  lemma ChangeTextPool(d: Doc, k: nat, text: seq<string>)
    requires WellFormed(d) && k < |d.commands| && d.commands[k].TextCommand? && |text| > 0
    requires HasEntry(d, k)
    ensures var d' := ChangeText(d, k, text);
      && k < |d'.commands| && d'.commands[k].TextCommand?
      && |d'.pool| >= |d.pool|
      && (forall id :: 0 <= id < |d.pool| ==> d'.pool[id].kind == d.pool[id].kind && d'.pool[id].command == d.pool[id].command)
      && (forall id :: 0 <= id < |d.pool| && id != d.commands[k].sourceLine && id !in d'.commands[k].continuationLines ==>
            d'.pool[id].text == d.pool[id].text)
  {
    var c := d.commands[k];
    var n := |text|;
    var p := Position(d, c.sourceLine);
    RelaidLines(d, k, n);
    RelaidShape(d, k, n);
    RelaidPool(d, k, n);
    var d1 := Relaid(d, k, n);
    WriteTextPool(d1, k, text, p);
    assert ChangeText(d, k, text) == WriteText(d1, k, text);
  }

  /** The command's new continuations are old ones or fresh line objects. */
  lemma ChangeTextConts(d: Doc, k: nat, text: seq<string>)
    requires WellFormed(d) && k < |d.commands| && d.commands[k].TextCommand? && |text| > 0
    requires HasEntry(d, k)
    ensures var d' := ChangeText(d, k, text);
      && k < |d'.commands| && d'.commands[k].TextCommand?
      && forall j :: 0 <= j < |d'.commands[k].continuationLines| ==>
           d'.commands[k].continuationLines[j] in d.commands[k].continuationLines
           || d'.commands[k].continuationLines[j] >= |d.pool|
  {
    var n := |text|;
    var p := Position(d, d.commands[k].sourceLine);
    SourceFound(d, k);
    RelayoutConts(d, k, p, n);
    RelaidShape(d, k, n);
    assert Relaid(d, k, n).commands[k].continuationLines == Relayout.Relayout(d, k, p, n).conts;
    assert ChangeText(d, k, text) == WriteText(Relaid(d, k, n), k, text);
  }

  /** Replacing the m continuations after position p by n - 1 others, and
      keeping the kinds of the old line objects, keeps the skeleton. */
  lemma SplicedSkeleton(d: Doc, d2: Doc, p: nat, m: nat, text: seq<string>)
    requires Sane(d) && Sane(d2) && |text| > 0 && p + m < |d.lines|
    requires |d2.lines| == |d.lines| + |text| - (m + 1)
    requires KeptBefore(d, d2, p) && d2.lines[p] == d.lines[p] && MovedAfter(d, d2, p, m, |text|)
    requires forall i :: p < i <= p + m ==> Kind(d, i) == TextContinuation
    requires ContinuationTexts(d2, p, text)
    requires |d2.pool| >= |d.pool|
    requires forall id :: 0 <= id < |d.pool| ==> d2.pool[id].kind == d.pool[id].kind
    ensures Skeleton(d2.pool, d2.lines) == Skeleton(d.pool, d.lines)
  {
    var n := |text|;
    var A, B, C := d.lines[..p + 1], d.lines[p + 1..p + m + 1], d.lines[p + m + 1..];
    var B' := d2.lines[p + 1..p + n];
    assert d.lines == A + B + C;
    assert d2.lines[..p + 1] == A by {
      forall i | 0 <= i < p ensures d2.lines[i] == d.lines[i] {
        assert d.lines[i] == d.lines[i];
      }
    }
    assert d2.lines[p + n..] == C by {
      forall i | 0 <= i < |C| ensures d2.lines[p + n + i] == C[i] {
        var o := p + m + 1 + i;
        assert d.lines[o] == C[i];
      }
    }
    assert d2.lines == A + B' + C;
    forall j | 0 <= j < |B'| ensures B'[j] < |d2.pool| && d2.pool[B'[j]].kind == TextContinuation {
      assert Line(d2, p + 1 + j).kind == TextContinuation;
    }
    forall j | 0 <= j < |B| ensures B[j] < |d.pool| && d.pool[B[j]].kind == TextContinuation {
      assert Kind(d, p + 1 + j) == TextContinuation;
    }
    SkeletonSplice(d.pool, d2.pool, A, B, B', C);
  }

  /** ChangeText adds and removes continuations only: the other lines of
      the page stay in their order. */
  lemma ChangeTextSkeleton(d: Doc, k: nat, text: seq<string>)
    requires WellFormed(d) && k < |d.commands| && d.commands[k].TextCommand? && |text| > 0
    requires HasEntry(d, k)
    ensures var d' := ChangeText(d, k, text);
      Sane(d') && |d'.pool| >= |d.pool| && Skeleton(d'.pool, d'.lines) == Skeleton(d.pool, d.lines)
  {
    var c := d.commands[k];
    var p := Position(d, c.sourceLine);
    var m := |c.continuationLines|;
    ChangeTextLines(d, k, text);
    ChangeTextAfter(d, k, text);
    ChangeTextPool(d, k, text);
    assert CommandOk(d, k) && CommandRefsOk(d, k) && LayoutOk(d, k);
    forall i | p < i <= p + m ensures Kind(d, i) == TextContinuation {
      assert Kind(d, p + 1 + (i - p - 1)) == TextContinuation;
    }
    SplicedSkeleton(d, ChangeText(d, k, text), p, m, text);
  }

  /** With as many lines as before, the re-layout changes nothing ... */
  lemma RelaidSame(d: Doc, k: nat)
    requires WellFormed(d) && k < |d.commands| && d.commands[k].TextCommand?
    ensures Relaid(d, k, |d.commands[k].continuationLines| + 1) == d
  {
    SourceFound(d, k);
    var c := d.commands[k];
    assert d.commands[k := c] == d.commands;
  }

  /** ... so ChangeText only writes the texts and the record. */
  lemma ChangeTextSameCount(d: Doc, k: nat, text: seq<string>)
    requires WellFormed(d) && k < |d.commands| && d.commands[k].TextCommand?
    requires |text| == |d.commands[k].continuationLines| + 1 && HasEntry(d, k)
    ensures ChangeText(d, k, text) == WriteText(d, k, text)
  {
    RelaidSame(d, k);
  }
}
