/** `Script.ChangeText` (TenkiConv/Program.cs:254-304): the re-layout of
    one dialogue command. Its continuation lines are cut back or new ones
    are inserted right after the run, every later line's LineNumber moves
    by the difference, the texts are written and the record's line count
    is set.

    The operation is described here as a function on documents; the
    `Script` class carries it out step by step. */
module Relayout {
  import opened Wrappers
  import opened Classifier
  import opened Records
  import opened Document

  // ---------------------------------------------------------------------
  // The building blocks of the operation

  /** `Lines.IndexOf(line)`: the first position holding the object, or -1. */
  function IndexOf(lines: seq<nat>, id: nat): (r: int)
    ensures -1 <= r < |lines|
    ensures r >= 0 ==> lines[r] == id && forall j :: 0 <= j < r ==> lines[j] != id
    ensures r < 0 ==> forall j :: 0 <= j < |lines| ==> lines[j] != id
  {
    IndexFrom(lines, id, 0)
  }

  function IndexFrom(lines: seq<nat>, id: nat, i: nat): (r: int)
    requires i <= |lines|
    ensures r == -1 || i <= r < |lines|
    ensures r >= 0 ==> lines[r] == id && forall j :: i <= j < r ==> lines[j] != id
    ensures r < 0 ==> forall j :: i <= j < |lines| ==> lines[j] != id
    decreases |lines| - i
  {
    if i == |lines| then -1 else if lines[i] == id then i else IndexFrom(lines, id, i + 1)
  }

  /** The line object with its LineNumber moved by delta. */
  function Moved(l: ScriptLine, delta: int): ScriptLine {
    l.(lineNumber := l.lineNumber + delta)
  }

  /** The loop `for i in from..Lines.Count: Lines[i].LineNumber += delta`. */
  function ShiftFrom(pool: seq<ScriptLine>, lines: seq<nat>, i: nat, delta: int): (r: seq<ScriptLine>)
    requires i <= |lines| && forall j :: 0 <= j < |lines| ==> lines[j] < |pool|
    ensures |r| == |pool|
    decreases |lines| - i
  {
    if i == |lines| then pool
    else ShiftFrom(pool[lines[i] := Moved(pool[lines[i]], delta)], lines, i + 1, delta)
  }

  /** The distinct objects from position i on. */
  predicate DistinctFrom(lines: seq<nat>, i: nat) {
    forall a, b :: i <= a < b < |lines| ==> lines[a] != lines[b]
  }

  /** Shifting moves exactly the objects from position i on, once each,
      and changes nothing but LineNumbers. */
  lemma {:induction false} ShiftFromEffect(pool: seq<ScriptLine>, lines: seq<nat>, i: nat, delta: int)
    requires i <= |lines| && forall j :: 0 <= j < |lines| ==> lines[j] < |pool|
    requires DistinctFrom(lines, i)
    ensures var r := ShiftFrom(pool, lines, i, delta);
      && (forall id :: 0 <= id < |pool| ==> r[id] == pool[id].(lineNumber := r[id].lineNumber))
      && (forall j :: i <= j < |lines| ==> r[lines[j]] == Moved(pool[lines[j]], delta))
      && (forall id :: 0 <= id < |pool| && (forall j :: i <= j < |lines| ==> lines[j] != id) ==> r[id] == pool[id])
    decreases |lines| - i
  {
    if i < |lines| {
      var pool' := pool[lines[i] := Moved(pool[lines[i]], delta)];
      ShiftFromEffect(pool', lines, i + 1, delta);
      forall j | i + 1 <= j < |lines| ensures pool'[lines[j]] == pool[lines[j]] {
        assert lines[j] != lines[i];
      }
    }
  }

  /** The text assignments `ids[j].Text = texts[j]`, from j = i on. */
  function SetTexts(pool: seq<ScriptLine>, ids: seq<nat>, texts: seq<string>, i: nat): (r: seq<ScriptLine>)
    requires i <= |ids| == |texts| && forall j :: 0 <= j < |ids| ==> ids[j] < |pool|
    ensures |r| == |pool|
    decreases |ids| - i
  {
    if i == |ids| then pool
    else SetTexts(pool[ids[i] := pool[ids[i]].(text := texts[i])], ids, texts, i + 1)
  }

  /** Writing texts changes texts only, and writes each distinct target. */
  lemma {:induction false} SetTextsEffect(pool: seq<ScriptLine>, ids: seq<nat>, texts: seq<string>, i: nat)
    requires i <= |ids| == |texts| && forall j :: 0 <= j < |ids| ==> ids[j] < |pool|
    requires DistinctFrom(ids, i)
    ensures var r := SetTexts(pool, ids, texts, i);
      && (forall id :: 0 <= id < |pool| ==> r[id] == pool[id].(text := r[id].text))
      && (forall j :: i <= j < |ids| ==> r[ids[j]].text == texts[j])
      && (forall id :: 0 <= id < |pool| && (forall j :: i <= j < |ids| ==> ids[j] != id) ==> r[id] == pool[id])
    decreases |ids| - i
  {
    if i < |ids| {
      var pool' := pool[ids[i] := pool[ids[i]].(text := texts[i])];
      SetTextsEffect(pool', ids, texts, i + 1);
      forall j | i + 1 <= j < |ids| ensures ids[j] != ids[i] {
      }
    }
  }

  /** The new continuation line objects of `ChangeText`, numbered from
      `start`. */
  function FreshLines(start: int, a: nat): (r: seq<ScriptLine>)
    ensures |r| == a
    ensures forall j :: 0 <= j < a ==> r[j] == ScriptLine(TextContinuation, "@--", start + j, Option.None)
  {
    seq(a, j => ScriptLine(TextContinuation, "@--", start + j, Option.None))
  }

  /** The identities `b, b+1, ..., b+a-1`. */
  function Range(b: nat, a: nat): (r: seq<nat>)
    ensures |r| == a && forall j :: 0 <= j < a ==> r[j] == b + j
  {
    seq(a, j requires 0 <= j => b + j)
  }

  // ---------------------------------------------------------------------
  // The reshaped document stays well formed

  /** `d1` has the layout of `d` with command k's run of continuations
      (m lines after position p) replaced by `cs`: every line keeps its
      kind and command, lines up to p stay where they are, the new run is
      numbered p+1.. and everything after moves by |cs| - m. Stated point
      by point, from the old positions to the new ones. */
  ghost predicate Reshaped(d: Doc, k: nat, p: nat, cs: seq<nat>, d1: Doc)
    requires Sane(d) && k < |d.commands| && d.commands[k].TextCommand?
  {
    var c := d.commands[k];
    var m := |c.continuationLines|;
    && p + m < |d.lines|
    && d1.commands == d.commands[k := c.(continuationLines := cs)]
    && d1.sections == d.sections
    && |d1.pool| >= |d.pool|
    && |d1.lines| == |d.lines| + |cs| - m
    && (forall id :: 0 <= id < |d.pool| ==> d1.pool[id].kind == d.pool[id].kind && d1.pool[id].command == d.pool[id].command)
    && (forall id :: |d.pool| <= id < |d1.pool| ==> d1.pool[id].command.None?)
    && (forall i {:trigger d.lines[i]} :: 0 <= i <= p ==>
          d1.lines[i] == d.lines[i] && d1.pool[d.lines[i]].lineNumber == i)
    && (forall j :: 0 <= j < |cs| ==> d1.lines[p + 1 + j] == cs[j] && ContinuationAt(d1, cs[j], p + 1 + j))
    && (forall o {:trigger d.lines[o]} :: p + m + 1 <= o < |d.lines| ==>
          d1.lines[o + |cs| - m] == d.lines[o] && d1.pool[d.lines[o]].lineNumber == o + |cs| - m)
  }

  /** Object id is a continuation line without command numbered n. */
  ghost predicate ContinuationAt(d: Doc, id: nat, n: int) {
    id < |d.pool| && d.pool[id].kind == TextContinuation && d.pool[id].lineNumber == n && d.pool[id].command.None?
  }

  lemma ReshapedSane(d: Doc, k: nat, p: nat, cs: seq<nat>, d1: Doc)
    requires WellFormed(d) && k < |d.commands| && d.commands[k].TextCommand?
    requires Reshaped(d, k, p, cs, d1)
    ensures Sane(d1)
  {
    var c := d.commands[k];
    var m := |c.continuationLines|;
    forall i | 0 <= i < |d1.lines| ensures d1.lines[i] < |d1.pool| {
      ReshapedLine(d, k, p, cs, d1, i);
      if p < i < p + 1 + |cs| {
        assert ContinuationAt(d1, cs[i - p - 1], i);
      }
    }
    forall x | 0 <= x < |d1.commands| ensures CommandRefsOk(d1, x) {
      assert CommandRefsOk(d, x);
      if x == k {
        forall j | 0 <= j < |cs| ensures cs[j] < |d1.pool| {
          assert ContinuationAt(d1, cs[j], p + 1 + j);
        }
      }
    }
    forall s | 0 <= s < |d1.sections| ensures SectionRefsOk(d1, s) {
      assert SectionRefsOk(d, s);
    }
  }

  /** Where the line at position i of `d1` came from. */
  lemma ReshapedLine(d: Doc, k: nat, p: nat, cs: seq<nat>, d1: Doc, i: nat)
    requires Sane(d) && k < |d.commands| && d.commands[k].TextCommand?
    requires Reshaped(d, k, p, cs, d1) && i < |d1.lines|
    ensures var m := |d.commands[k].continuationLines|;
      && (i <= p ==> d1.lines[i] == d.lines[i] && d1.pool[d1.lines[i]].lineNumber == i)
      && (p < i < p + 1 + |cs| ==> d1.lines[i] == cs[i - p - 1])
      && (p + 1 + |cs| <= i ==>
            && p + m + 1 <= i - |cs| + m < |d.lines|
            && d1.lines[i] == d.lines[i - |cs| + m]
            && d1.pool[d1.lines[i]].lineNumber == i)
  {
    var m := |d.commands[k].continuationLines|;
    if i <= p {
      assert d.lines[i] == d.lines[i];
    } else if i < p + 1 + |cs| {
      assert d1.lines[p + 1 + (i - p - 1)] == cs[i - p - 1];
    } else {
      var o := i - |cs| + m;
      assert d.lines[o] == d.lines[o];
      assert d1.lines[o + |cs| - m] == d.lines[o];
    }
  }

  /** The kind at each position of `d1`. */
  lemma ReshapedKind(d: Doc, k: nat, p: nat, cs: seq<nat>, d1: Doc, i: nat)
    requires Sane(d) && k < |d.commands| && d.commands[k].TextCommand?
    requires Reshaped(d, k, p, cs, d1) && Sane(d1) && i < |d1.lines|
    ensures var m := |d.commands[k].continuationLines|;
      && (i <= p ==> Kind(d1, i) == Kind(d, i) && Line(d1, i).command == Line(d, i).command)
      && (p < i < p + 1 + |cs| ==> Kind(d1, i) == TextContinuation && Line(d1, i).command.None?)
      && (p + 1 + |cs| <= i ==> Kind(d1, i) == Kind(d, i - |cs| + m) && Line(d1, i).command == Line(d, i - |cs| + m).command)
      && Line(d1, i).lineNumber == i
  {
    ReshapedLine(d, k, p, cs, d1, i);
    if p < i < p + 1 + |cs| {
      assert ContinuationAt(d1, cs[i - p - 1], p + 1 + (i - p - 1));
    }
  }

  /** The run of command k in a well-formed document: its source line at
      p is dialogue and the line after the run is not a continuation. */
  lemma RunBounds(d: Doc, k: nat, p: nat)
    requires WellFormed(d) && k < |d.commands| && d.commands[k].TextCommand?
    requires p == Position(d, d.commands[k].sourceLine)
    ensures var m := |d.commands[k].continuationLines|;
      && p + m < |d.lines| && d.lines[p] == d.commands[k].sourceLine && Kind(d, p) == Text
      && (p + m + 1 < |d.lines| ==> Kind(d, p + m + 1) != TextContinuation)
      && (forall i :: p < i <= p + m ==> Kind(d, i) == TextContinuation)
      && (forall j :: 0 <= j < m ==> d.lines[p + 1 + j] == d.commands[k].continuationLines[j])
  {
    assert CommandOk(d, k) && CommandRefsOk(d, k) && LayoutOk(d, k);
  }

  lemma ReshapedLineOk(d: Doc, k: nat, p: nat, cs: seq<nat>, d1: Doc, i: nat)
    requires WellFormed(d) && k < |d.commands| && d.commands[k].TextCommand?
    requires p == Position(d, d.commands[k].sourceLine)
    requires Reshaped(d, k, p, cs, d1) && Sane(d1) && i < |d1.lines|
    ensures LineOk(d1, i)
  {
    var m := |d.commands[k].continuationLines|;
    RunBounds(d, k, p);
    ReshapedLine(d, k, p, cs, d1, i);
    ReshapedKind(d, k, p, cs, d1, i);
    if i > 0 {
      ReshapedKind(d, k, p, cs, d1, i - 1);
    }
    if i <= p || p + 1 + |cs| <= i {
      var o := if i <= p then i else i - |cs| + m;
      assert LineOk(d, o);
      var l := Line(d, o);
      if l.command.Some? {
        assert d1.commands[l.command.value].sourceLine == d.commands[l.command.value].sourceLine;
      }
    }
  }

  lemma ReshapedCommandOk(d: Doc, k: nat, p: nat, cs: seq<nat>, d1: Doc, x: nat)
    requires WellFormed(d) && k < |d.commands| && d.commands[k].TextCommand?
    requires p == Position(d, d.commands[k].sourceLine)
    requires Reshaped(d, k, p, cs, d1) && Sane(d1) && x < |d1.commands|
    ensures CommandOk(d1, x)
  {
    assert CommandOk(d, x) && CommandRefsOk(d, x);
    RunBounds(d, k, p);
    var c := d.commands[x];
    var px := Position(d, c.sourceLine);
    var m := |d.commands[k].continuationLines|;
    if x == k {
      CommandOkOwn(d, k, p, cs, d1);
    } else if px < p {
      if c.TextCommand? {
        RunsDisjoint(d, x, k);
      }
      CommandOkBefore(d, k, p, cs, d1, x);
    } else {
      assert CommandOk(d, k) && OnPage(d, c.sourceLine);
      assert Line(d, px).command == Some(x);
      assert px != p by {
        assert Line(d, p).command == Some(k);
      }
      assert Kind(d, px) != TextContinuation by {
        assert LineOk(d, px);
      }
      if c.TextCommand? && px - 1 == p + m && m > 0 {
        assert Kind(d, px - 1) == TextContinuation;
      }
      CommandOkAfter(d, k, p, cs, d1, x);
    }
  }

  /** A dialogue layout moved by `off` positions, with its surroundings,
      is still a layout. */
  lemma LayoutShift(d: Doc, d1: Doc, x: nat, off: int)
    requires Sane(d) && Sane(d1) && x < |d.commands| && x < |d1.commands|
    requires d1.commands[x] == d.commands[x] && d.commands[x].TextCommand?
    requires CommandRefsOk(d, x) && OnPage(d, d.commands[x].sourceLine) && LayoutOk(d, x)
    requires CommandRefsOk(d1, x) && OnPage(d1, d.commands[x].sourceLine)
    requires var px := Position(d, d.commands[x].sourceLine);
      var mx := |d.commands[x].continuationLines|;
      && Position(d1, d.commands[x].sourceLine) == px + off
      && px + off + mx < |d1.lines|
      && (forall i :: px < i <= px + mx ==> d1.lines[i + off] == d.lines[i] && Kind(d1, i + off) == Kind(d, i))
      && (px + mx + 1 < |d.lines| <==> px + off + mx + 1 < |d1.lines|)
      && (px + mx + 1 < |d.lines| ==> Kind(d1, px + off + mx + 1) != TextContinuation)
      && ((px > 0 && Kind(d, px - 1) == Speaker) <==> (px + off > 0 && Kind(d1, px + off - 1) == Speaker))
      && (px > 0 && Kind(d, px - 1) == Speaker ==> d1.lines[px + off - 1] == d.lines[px - 1])
    ensures LayoutOk(d1, x)
  {
    var c := d.commands[x];
    var px := Position(d, c.sourceLine);
    var mx := |c.continuationLines|;
    forall j | 0 <= j < mx ensures d1.lines[px + off + 1 + j] == c.continuationLines[j] {
      assert d1.lines[(px + 1 + j) + off] == d.lines[px + 1 + j];
    }
    forall i | px + off < i <= px + off + mx ensures Kind(d1, i) == TextContinuation {
      assert Kind(d1, (i - off) + off) == Kind(d, i - off);
    }
  }

  lemma CommandOkOwn(d: Doc, k: nat, p: nat, cs: seq<nat>, d1: Doc)
    requires Sane(d) && k < |d.commands| && d.commands[k].TextCommand? && CommandOk(d, k)
    requires p == Position(d, d.commands[k].sourceLine)
    requires Reshaped(d, k, p, cs, d1) && Sane(d1)
    requires var m := |d.commands[k].continuationLines|;
      && p + m < |d.lines| && d.lines[p] == d.commands[k].sourceLine && Kind(d, p) == Text
      && (p + m + 1 < |d.lines| ==> Kind(d, p + m + 1) != TextContinuation)
    ensures CommandOk(d1, k)
  {
    var m := |d.commands[k].continuationLines|;
    assert CommandRefsOk(d, k) && LayoutOk(d, k);
    assert CommandRefsOk(d1, k);
    ReshapedLine(d, k, p, cs, d1, p);
    forall i | p < i <= p + |cs| ensures Kind(d1, i) == TextContinuation {
      ReshapedKind(d, k, p, cs, d1, i);
    }
    if p > 0 {
      ReshapedLine(d, k, p, cs, d1, p - 1);
      ReshapedKind(d, k, p, cs, d1, p - 1);
    }
    if p + |cs| + 1 < |d1.lines| {
      ReshapedKind(d, k, p, cs, d1, p + |cs| + 1);
    }
    assert LayoutOk(d1, k);
  }

  lemma CommandOkBefore(d: Doc, k: nat, p: nat, cs: seq<nat>, d1: Doc, x: nat)
    requires Sane(d) && k < |d.commands| && d.commands[k].TextCommand?
    requires Reshaped(d, k, p, cs, d1) && Sane(d1) && x < |d.commands| && x != k && CommandOk(d, x)
    requires Position(d, d.commands[x].sourceLine) < p
    requires d.commands[x].TextCommand? ==>
      Position(d, d.commands[x].sourceLine) + |d.commands[x].continuationLines| < p
    ensures CommandOk(d1, x)
  {
    var c := d.commands[x];
    assert CommandRefsOk(d, x) && CommandRefsOk(d1, x);
    var px := Position(d, c.sourceLine);
    assert d1.commands[x] == c;
    ReshapedLine(d, k, p, cs, d1, px);
    assert OnPage(d1, c.sourceLine);
    if c.TextCommand? {
      assert LayoutOk(d, x);
      var mx := |c.continuationLines|;
      forall i | px < i <= px + mx + 1 ensures d1.lines[i + 0] == d.lines[i] && Kind(d1, i + 0) == Kind(d, i) {
        ReshapedLine(d, k, p, cs, d1, i);
        ReshapedKind(d, k, p, cs, d1, i);
      }
      if px > 0 {
        ReshapedLine(d, k, p, cs, d1, px - 1);
        ReshapedKind(d, k, p, cs, d1, px - 1);
      }
      LayoutShift(d, d1, x, 0);
    }
  }

  lemma CommandOkAfter(d: Doc, k: nat, p: nat, cs: seq<nat>, d1: Doc, x: nat)
    requires Sane(d) && k < |d.commands| && d.commands[k].TextCommand?
    requires Reshaped(d, k, p, cs, d1) && Sane(d1) && x < |d.commands| && x != k && CommandOk(d, x)
    requires var m := |d.commands[k].continuationLines|;
      Position(d, d.commands[x].sourceLine) > p + m
    requires var m := |d.commands[k].continuationLines|;
      d.commands[x].TextCommand? && Position(d, d.commands[x].sourceLine) - 1 == p + m ==>
        Kind(d, p + m) in {Text, TextContinuation} && (|cs| == 0 ==> Kind(d, p) == Text)
    ensures CommandOk(d1, x)
  {
    var c := d.commands[x];
    var m := |d.commands[k].continuationLines|;
    assert CommandRefsOk(d, x) && CommandRefsOk(d1, x);
    var px := Position(d, c.sourceLine);
    var delta := |cs| - m;
    assert d1.commands[x] == c;
    ReshapedLine(d, k, p, cs, d1, px + delta);
    assert OnPage(d1, c.sourceLine);
    if c.TextCommand? {
      assert LayoutOk(d, x);
      AfterWindow(d, k, p, cs, d1, x);
      AfterName(d, k, p, cs, d1, x);
      LayoutShift(d, d1, x, |cs| - m);
    }
  }

  lemma AfterWindow(d: Doc, k: nat, p: nat, cs: seq<nat>, d1: Doc, x: nat)
    requires Sane(d) && k < |d.commands| && d.commands[k].TextCommand?
    requires Reshaped(d, k, p, cs, d1) && Sane(d1) && x < |d.commands|
    requires var m := |d.commands[k].continuationLines|;
      Position(d, d.commands[x].sourceLine) > p + m
    ensures var m := |d.commands[k].continuationLines|;
      var px := Position(d, d.commands[x].sourceLine);
      var mx := if d.commands[x].TextCommand? then |d.commands[x].continuationLines| else 0;
      forall i :: px < i <= px + mx + 1 && i < |d.lines| ==>
        d1.lines[i + |cs| - m] == d.lines[i] && Kind(d1, i + |cs| - m) == Kind(d, i)
  {
    var m := |d.commands[k].continuationLines|;
    var px := Position(d, d.commands[x].sourceLine);
    var mx := if d.commands[x].TextCommand? then |d.commands[x].continuationLines| else 0;
    forall i | px < i <= px + mx + 1 && i < |d.lines|
      ensures d1.lines[i + |cs| - m] == d.lines[i] && Kind(d1, i + |cs| - m) == Kind(d, i)
    {
      ReshapedLine(d, k, p, cs, d1, i + |cs| - m);
      ReshapedKind(d, k, p, cs, d1, i + |cs| - m);
    }
  }

  lemma AfterName(d: Doc, k: nat, p: nat, cs: seq<nat>, d1: Doc, x: nat)
    requires Sane(d) && k < |d.commands| && d.commands[k].TextCommand?
    requires Reshaped(d, k, p, cs, d1) && Sane(d1) && x < |d.commands|
    requires var m := |d.commands[k].continuationLines|;
      p + m < Position(d, d.commands[x].sourceLine) < |d.lines|
    requires var m := |d.commands[k].continuationLines|;
      Position(d, d.commands[x].sourceLine) - 1 == p + m ==>
        Kind(d, p + m) in {Text, TextContinuation} && (|cs| == 0 ==> Kind(d, p) == Text)
    ensures var m := |d.commands[k].continuationLines|;
      var px := Position(d, d.commands[x].sourceLine);
      && ((px > 0 && Kind(d, px - 1) == Speaker) <==> (px + |cs| - m > 0 && Kind(d1, px + |cs| - m - 1) == Speaker))
      && (px > 0 && Kind(d, px - 1) == Speaker ==> d1.lines[px + |cs| - m - 1] == d.lines[px - 1])
  {
    var m := |d.commands[k].continuationLines|;
    var px := Position(d, d.commands[x].sourceLine);
    ReshapedLine(d, k, p, cs, d1, px + |cs| - m - 1);
    ReshapedKind(d, k, p, cs, d1, px + |cs| - m - 1);
  }

  /** Replacing a dialogue run keeps the document well formed. */
  lemma ReshapedWellFormed(d: Doc, k: nat, p: nat, cs: seq<nat>, d1: Doc)
    requires WellFormed(d) && k < |d.commands| && d.commands[k].TextCommand?
    requires p == Position(d, d.commands[k].sourceLine)
    requires Reshaped(d, k, p, cs, d1)
    ensures WellFormed(d1)
  {
    ReshapedSane(d, k, p, cs, d1);
    forall i | 0 <= i < |d1.lines| ensures LineOk(d1, i) {
      ReshapedLineOk(d, k, p, cs, d1, i);
    }
    forall x | 0 <= x < |d1.commands| ensures CommandOk(d1, x) {
      ReshapedCommandOk(d, k, p, cs, d1, x);
    }
    forall s | 0 <= s < |d1.sections| ensures SectionOk(d1, s) {
      assert SectionOk(d, s) && SectionRefsOk(d, s);
    }
  }

  // ---------------------------------------------------------------------
  // The line lists after ChangeText's RemoveRange / InsertRange step

  /** What the list step leaves: the line objects, Lines, and the
      command's ContinuationLines. */
  datatype Layout = Layout(pool: seq<ScriptLine>, lines: seq<nat>, conts: seq<nat>)

  /** The list step of ChangeText for command k with its source line at
      position p and n new lines: the surplus continuations are removed,
      or the missing ones are created and inserted after the run, and the
      LineNumbers from position p+n on move by the difference. */
  function Relayout(d: Doc, k: nat, p: nat, n: nat): Layout
    requires Sane(d) && k < |d.commands| && d.commands[k].TextCommand? && n > 0
    requires p + |d.commands[k].continuationLines| < |d.lines|
  {
    var c := d.commands[k];
    var m := |c.continuationLines|;
    if m + 1 > n then
      var r := m + 1 - n;
      var ls := d.lines[..p + n] + d.lines[p + n + r..];
      Layout(ShiftFrom(d.pool, ls, p + n, -r), ls, c.continuationLines[..n - 1])
    else if m + 1 < n then
      var a := n - m - 1;
      var pool0 := d.pool + FreshLines(p + m + 1, a);
      var ls := d.lines[..p + m + 1] + Range(|d.pool|, a) + d.lines[p + m + 1..];
      Layout(ShiftFrom(pool0, ls, p + n, a), ls, c.continuationLines + Range(|d.pool|, a))
    else
      Layout(d.pool, d.lines, c.continuationLines)
  }

  /** The document with the lists of a layout. */
  function WithLayout(d: Doc, k: nat, lay: Layout): Doc
    requires k < |d.commands| && d.commands[k].TextCommand?
  {
    Doc(lay.pool, lay.lines, d.commands[k := d.commands[k].(continuationLines := lay.conts)], d.sections)
  }

  /** The facts about command k's run that the list step relies on: its
      continuations follow the source line at p, all positions hold
      different objects, and every line's number is its position. */
  ghost predicate RunShape(d: Doc, k: nat, p: nat)
    requires Sane(d) && k < |d.commands| && d.commands[k].TextCommand?
  {
    var c := d.commands[k];
    var m := |c.continuationLines|;
    && p + m < |d.lines|
    && (forall i {:trigger d.lines[i]} :: 0 <= i < |d.lines| ==> d.pool[d.lines[i]].lineNumber == i)
    && (forall j :: 0 <= j < m ==>
          d.lines[p + 1 + j] == c.continuationLines[j] && ContinuationAt(d, c.continuationLines[j], p + 1 + j))
  }

  lemma RunFacts(d: Doc, k: nat, p: nat)
    requires WellFormed(d) && k < |d.commands| && d.commands[k].TextCommand?
    requires p == Position(d, d.commands[k].sourceLine)
    ensures RunShape(d, k, p)
  {
    RunBounds(d, k, p);
    var m := |d.commands[k].continuationLines|;
    forall i | 0 <= i < |d.lines| ensures d.pool[d.lines[i]].lineNumber == i {
      assert LineOk(d, i);
    }
    forall j | 0 <= j < m
      ensures ContinuationAt(d, d.commands[k].continuationLines[j], p + 1 + j)
    {
      assert LineOk(d, p + 1 + j);
      assert Kind(d, p + 1 + j) == TextContinuation;
    }
  }

  /** ShiftFrom by positions: the objects from position i on move, the
      ones before stay, and only LineNumbers change. */
  lemma ShiftPositions(pool: seq<ScriptLine>, lines: seq<nat>, i: nat, delta: int)
    requires i <= |lines| && forall j :: 0 <= j < |lines| ==> lines[j] < |pool|
    requires DistinctFrom(lines, 0)
    ensures var r := ShiftFrom(pool, lines, i, delta);
      && (forall id :: 0 <= id < |pool| ==> r[id] == pool[id].(lineNumber := r[id].lineNumber))
      && (forall j :: i <= j < |lines| ==> r[lines[j]] == Moved(pool[lines[j]], delta))
      && (forall j :: 0 <= j < i ==> r[lines[j]] == pool[lines[j]])
  {
    ShiftFromEffect(pool, lines, i, delta);
    var r := ShiftFrom(pool, lines, i, delta);
    forall j | 0 <= j < i ensures r[lines[j]] == pool[lines[j]] {
      assert forall j' :: i <= j' < |lines| ==> lines[j'] != lines[j];
    }
  }

  /** Removing positions a .. a+r-1 of a list whose objects are numbered
      by position, then shifting what follows. */
  lemma CutShift(pool: seq<ScriptLine>, L: seq<nat>, a: nat, r: nat, delta: int)
    requires a + r <= |L|
    requires forall i :: 0 <= i < |L| ==> L[i] < |pool| && pool[L[i]].lineNumber == i
    ensures var P := ShiftFrom(pool, L[..a] + L[a + r..], a, delta);
      && |P| == |pool|
      && (forall id :: 0 <= id < |pool| ==> P[id] == pool[id].(lineNumber := P[id].lineNumber))
      && (forall i :: 0 <= i < a ==> P[L[i]] == pool[L[i]])
      && (forall o :: a + r <= o < |L| ==> P[L[o]] == Moved(pool[L[o]], delta))
  {
    var ls := L[..a] + L[a + r..];
    CutDistinct(pool, L, a, r);
    ShiftPositions(pool, ls, a, delta);
    forall i | 0 <= i < a ensures ls[i] == L[i] {
    }
    forall o | a + r <= o < |L| ensures ls[o - r] == L[o] {
    }
  }

  /** A list numbered by position stays duplicate-free after a cut. */
  lemma CutDistinct(pool: seq<ScriptLine>, L: seq<nat>, a: nat, r: nat)
    requires a + r <= |L|
    requires forall i :: 0 <= i < |L| ==> L[i] < |pool| && pool[L[i]].lineNumber == i
    ensures DistinctFrom(L[..a] + L[a + r..], 0)
  {
    var ls := L[..a] + L[a + r..];
    assert forall j :: 0 <= j < |ls| ==> ls[j] == if j < a then L[j] else L[j + r];
    forall x, y | 0 <= x < y < |ls| ensures ls[x] != ls[y] {
      var x' := if x < a then x else x + r;
      var y' := if y < a then y else y + r;
      assert pool[L[x']].lineNumber == x' && pool[L[y']].lineNumber == y';
    }
  }

  /** The list step when lines are removed. */
  lemma ShrinkShift(d: Doc, k: nat, p: nat, n: nat)
    requires Sane(d) && k < |d.commands| && d.commands[k].TextCommand? && RunShape(d, k, p)
    requires 0 < n < |d.commands[k].continuationLines| + 1
    ensures var m := |d.commands[k].continuationLines|;
      var r := m + 1 - n;
      var lay := Relayout(d, k, p, n);
      && lay.lines == d.lines[..p + n] + d.lines[p + n + r..]
      && lay.conts == d.commands[k].continuationLines[..n - 1]
      && |lay.pool| == |d.pool|
      && (forall id :: 0 <= id < |d.pool| ==> lay.pool[id] == d.pool[id].(lineNumber := lay.pool[id].lineNumber))
      && (forall i :: 0 <= i < p + n ==> lay.pool[d.lines[i]] == d.pool[d.lines[i]])
      && (forall o :: p + m + 1 <= o < |d.lines| ==> lay.pool[d.lines[o]] == Moved(d.pool[d.lines[o]], -r))
  {
    var m := |d.commands[k].continuationLines|;
    CutShift(d.pool, d.lines, p + n, m + 1 - n, -(m + 1 - n));
  }

  lemma ShrinkReshaped(d: Doc, k: nat, p: nat, n: nat)
    requires Sane(d) && k < |d.commands| && d.commands[k].TextCommand? && RunShape(d, k, p)
    requires 0 < n < |d.commands[k].continuationLines| + 1
    ensures var lay := Relayout(d, k, p, n);
      |lay.conts| == n - 1 && Reshaped(d, k, p, lay.conts, WithLayout(d, k, lay))
  {
    ShrinkShift(d, k, p, n);
    ShrunkReshaped(d, k, p, n, Relayout(d, k, p, n));
  }

  /** A layout with the shape the list step gives when lines are removed
      is reshaped. */
  lemma ShrunkReshaped(d: Doc, k: nat, p: nat, n: nat, lay: Layout)
    requires Sane(d) && k < |d.commands| && d.commands[k].TextCommand? && RunShape(d, k, p)
    requires 0 < n < |d.commands[k].continuationLines| + 1
    requires var m := |d.commands[k].continuationLines|;
      var r := m + 1 - n;
      && lay.lines == d.lines[..p + n] + d.lines[p + n + r..]
      && lay.conts == d.commands[k].continuationLines[..n - 1]
      && |lay.pool| == |d.pool|
      && (forall id :: 0 <= id < |d.pool| ==> lay.pool[id] == d.pool[id].(lineNumber := lay.pool[id].lineNumber))
      && (forall i :: 0 <= i < p + n ==> lay.pool[d.lines[i]] == d.pool[d.lines[i]])
      && (forall o :: p + m + 1 <= o < |d.lines| ==> lay.pool[d.lines[o]] == Moved(d.pool[d.lines[o]], -r))
    ensures |lay.conts| == n - 1 && Reshaped(d, k, p, lay.conts, WithLayout(d, k, lay))
  {
    var m := |d.commands[k].continuationLines|;
    var r := m + 1 - n;
    var L := d.lines;
    forall j | 0 <= j < n - 1 ensures lay.lines[p + 1 + j] == lay.conts[j] && ContinuationAt(WithLayout(d, k, lay), lay.conts[j], p + 1 + j) {
      assert lay.lines[p + 1 + j] == L[p + 1 + j];
    }
    forall o | p + m + 1 <= o < |L| ensures lay.lines[o - r] == L[o] {
      assert lay.lines[o - r] == L[p + n + r..][o - r - p - n];
    }
  }

  /** Inserting `a` fresh objects at position q of a list whose objects are
      numbered by position, then shifting what follows them. */
  lemma InsertShift(pool: seq<ScriptLine>, L: seq<nat>, q: nat, a: nat)
    requires q <= |L|
    requires forall i :: 0 <= i < |L| ==> L[i] < |pool| && pool[L[i]].lineNumber == i
    ensures var pool0 := pool + FreshLines(q, a);
      var P := ShiftFrom(pool0, L[..q] + Range(|pool|, a) + L[q..], q + a, a);
      && |P| == |pool| + a
      && (forall id :: 0 <= id < |pool| ==> P[id] == pool[id].(lineNumber := P[id].lineNumber))
      && (forall i :: 0 <= i < q ==> P[L[i]] == pool[L[i]])
      && (forall id :: |pool| <= id < |pool| + a ==>
            P[id] == ScriptLine(TextContinuation, "@--", q + (id - |pool|), Option.None))
      && (forall o :: q <= o < |L| ==> P[L[o]] == Moved(pool[L[o]], a))
  {
    var pool0 := pool + FreshLines(q, a);
    var ls := L[..q] + Range(|pool|, a) + L[q..];
    InsertIndex(L, q, |pool|, a);
    var P := ShiftFrom(pool0, ls, q + a, a);
    InsertMoves(pool, L, q, a);
    forall i | 0 <= i < q ensures P[L[i]] == pool[L[i]] {
      assert ls[i] == L[i];
      assert pool0[L[i]] == pool[L[i]];
    }
    forall id | 0 <= id < |pool| ensures P[id] == pool[id].(lineNumber := P[id].lineNumber) {
      assert pool0[id] == pool[id];
    }
    forall o | q <= o < |L| ensures P[L[o]] == Moved(pool[L[o]], a) {
      assert ls[o + a] == L[o];
    }
    forall id | |pool| <= id < |pool| + a
      ensures P[id] == ScriptLine(TextContinuation, "@--", q + (id - |pool|), Option.None)
    {
      assert ls[q + (id - |pool|)] == id;
    }
  }

  lemma InsertMoves(pool: seq<ScriptLine>, L: seq<nat>, q: nat, a: nat)
    requires q <= |L|
    requires forall i :: 0 <= i < |L| ==> L[i] < |pool| && pool[L[i]].lineNumber == i
    ensures var pool0 := pool + FreshLines(q, a);
      var ls := L[..q] + Range(|pool|, a) + L[q..];
      var P := ShiftFrom(pool0, ls, q + a, a);
      && (forall id :: 0 <= id < |pool0| ==> P[id] == pool0[id].(lineNumber := P[id].lineNumber))
      && (forall j :: q + a <= j < |ls| ==> P[ls[j]] == Moved(pool0[ls[j]], a))
      && (forall j :: 0 <= j < q + a ==> P[ls[j]] == pool0[ls[j]])
  {
    InsertDistinct(pool, L, q, a);
    ShiftPositions(pool + FreshLines(q, a), L[..q] + Range(|pool|, a) + L[q..], q + a, a);
  }

  /** The list after an insertion, position by position. */
  lemma InsertIndex(L: seq<nat>, q: nat, b: nat, a: nat)
    requires q <= |L|
    ensures var ls := L[..q] + Range(b, a) + L[q..];
      && |ls| == |L| + a
      && (forall j :: 0 <= j < |ls| ==> ls[j] == if j < q then L[j] else if j < q + a then b + (j - q) else L[j - a])
  {
  }

  lemma InsertDistinct(pool: seq<ScriptLine>, L: seq<nat>, q: nat, a: nat)
    requires q <= |L|
    requires forall i :: 0 <= i < |L| ==> L[i] < |pool| && pool[L[i]].lineNumber == i
    ensures var ls := L[..q] + Range(|pool|, a) + L[q..];
      && (forall j :: 0 <= j < |ls| ==> ls[j] < |pool| + a)
      && DistinctFrom(ls, 0)
  {
    var ls := L[..q] + Range(|pool|, a) + L[q..];
    InsertIndex(L, q, |pool|, a);
    forall x, y | 0 <= x < y < |ls| ensures ls[x] != ls[y] {
      if x < q || q + a <= x {
        var x' := if x < q then x else x - a;
        if y < q || q + a <= y {
          var y' := if y < q then y else y - a;
          assert pool[L[x']].lineNumber == x' && pool[L[y']].lineNumber == y';
        }
      }
    }
  }

  /** The list step when lines are added. */
  lemma GrowShift(d: Doc, k: nat, p: nat, n: nat)
    requires Sane(d) && k < |d.commands| && d.commands[k].TextCommand? && RunShape(d, k, p)
    requires |d.commands[k].continuationLines| + 1 < n
    ensures var m := |d.commands[k].continuationLines|;
      var a := n - m - 1;
      var lay := Relayout(d, k, p, n);
      && lay.lines == d.lines[..p + m + 1] + Range(|d.pool|, a) + d.lines[p + m + 1..]
      && lay.conts == d.commands[k].continuationLines + Range(|d.pool|, a)
      && |lay.pool| == |d.pool| + a
      && (forall id :: 0 <= id < |d.pool| ==> lay.pool[id] == d.pool[id].(lineNumber := lay.pool[id].lineNumber))
      && (forall i :: 0 <= i < p + m + 1 ==> lay.pool[d.lines[i]] == d.pool[d.lines[i]])
      && (forall id :: |d.pool| <= id < |d.pool| + a ==>
            lay.pool[id] == ScriptLine(TextContinuation, "@--", p + m + 1 + (id - |d.pool|), Option.None))
      && (forall o :: p + m + 1 <= o < |d.lines| ==> lay.pool[d.lines[o]] == Moved(d.pool[d.lines[o]], a))
  {
    var c := d.commands[k];
    var m := |c.continuationLines|;
    var a := n - m - 1;
    var ls := d.lines[..p + m + 1] + Range(|d.pool|, a) + d.lines[p + m + 1..];
    var P := ShiftFrom(d.pool + FreshLines(p + m + 1, a), ls, p + n, a);
    assert Relayout(d, k, p, n) == Layout(P, ls, c.continuationLines + Range(|d.pool|, a));
    assert forall i :: 0 <= i < |d.lines| ==> d.lines[i] < |d.pool| && d.pool[d.lines[i]].lineNumber == i;
    InsertShift(d.pool, d.lines, p + m + 1, a);
  }

  lemma GrowReshaped(d: Doc, k: nat, p: nat, n: nat)
    requires Sane(d) && k < |d.commands| && d.commands[k].TextCommand? && RunShape(d, k, p)
    requires |d.commands[k].continuationLines| + 1 < n
    ensures var lay := Relayout(d, k, p, n);
      |lay.conts| == n - 1 && Reshaped(d, k, p, lay.conts, WithLayout(d, k, lay))
  {
    GrowShift(d, k, p, n);
    GrowRun(d, k, p, n);
    GrowTail(d, k, p, n);
  }

  /** After growing, the run holds the old continuations and then the new
      objects, numbered p+1... */
  lemma GrowRun(d: Doc, k: nat, p: nat, n: nat)
    requires Sane(d) && k < |d.commands| && d.commands[k].TextCommand? && RunShape(d, k, p)
    requires |d.commands[k].continuationLines| + 1 < n
    ensures var lay := Relayout(d, k, p, n);
      |lay.conts| == n - 1 &&
      forall j :: 0 <= j < n - 1 ==> lay.lines[p + 1 + j] == lay.conts[j] && ContinuationAt(WithLayout(d, k, lay), lay.conts[j], p + 1 + j)
  {
    var c := d.commands[k];
    var m := |c.continuationLines|;
    var a := n - m - 1;
    var L := d.lines;
    GrowShift(d, k, p, n);
    InsertIndex(L, p + m + 1, |d.pool|, a);
    var lay := Relayout(d, k, p, n);
    var d1 := WithLayout(d, k, lay);
    forall j | 0 <= j < n - 1 ensures lay.lines[p + 1 + j] == lay.conts[j] && ContinuationAt(d1, lay.conts[j], p + 1 + j) {
      if j < m {
        assert lay.conts[j] == c.continuationLines[j];
      } else {
        assert lay.conts[j] == |d.pool| + (j - m);
      }
    }
  }

  /** After growing, the lines below the run sit a lines further down and
      are renumbered to match. */
  lemma GrowTail(d: Doc, k: nat, p: nat, n: nat)
    requires Sane(d) && k < |d.commands| && d.commands[k].TextCommand? && RunShape(d, k, p)
    requires |d.commands[k].continuationLines| + 1 < n
    ensures var m := |d.commands[k].continuationLines|;
      var lay := Relayout(d, k, p, n);
      var d1 := WithLayout(d, k, lay);
      forall o {:trigger d.lines[o]} :: p + m + 1 <= o < |d.lines| ==>
        d1.lines[o + |lay.conts| - m] == d.lines[o] && d1.pool[d.lines[o]].lineNumber == o + |lay.conts| - m
  {
    var m := |d.commands[k].continuationLines|;
    GrowShift(d, k, p, n);
    var lay := Relayout(d, k, p, n);
    var a := n - m - 1;
    TailMoves(d.pool, d.lines, lay.pool, lay.lines, p + m + 1, |d.pool|, a);
    assert |lay.conts| - m == a;
  }

  /** The list and pool facts behind GrowTail, on plain sequences. */
  lemma TailMoves(pool: seq<ScriptLine>, L: seq<nat>, P: seq<ScriptLine>, ls: seq<nat>, q: nat, b: nat, a: nat)
    requires q <= |L| && ls == L[..q] + Range(b, a) + L[q..]
    requires forall i {:trigger L[i]} :: 0 <= i < |L| ==> L[i] < |pool| && L[i] < |P| && pool[L[i]].lineNumber == i
    requires forall o :: q <= o < |L| ==> P[L[o]] == Moved(pool[L[o]], a)
    ensures forall o {:trigger L[o]} :: q <= o < |L| ==> ls[o + a] == L[o] && P[L[o]].lineNumber == o + a
  {
    InsertIndex(L, q, b, a);
  }

  lemma SameReshaped(d: Doc, k: nat, p: nat)
    requires Sane(d) && k < |d.commands| && d.commands[k].TextCommand? && RunShape(d, k, p)
    ensures var lay := Relayout(d, k, p, |d.commands[k].continuationLines| + 1);
      |lay.conts| == |d.commands[k].continuationLines| && Reshaped(d, k, p, lay.conts, WithLayout(d, k, lay))
  {
    var lay := Relayout(d, k, p, |d.commands[k].continuationLines| + 1);
    assert WithLayout(d, k, lay).commands == d.commands;
  }

  // ---------------------------------------------------------------------
  // The re-layout keeps the document well formed

  /** `Lines.IndexOf(command.SourceLine)` finds the line at the position its
      LineNumber records. */
  lemma IndexOfSource(d: Doc, k: nat)
    requires WellFormed(d) && k < |d.commands|
    ensures IndexOf(d.lines, d.commands[k].sourceLine) == Position(d, d.commands[k].sourceLine)
  {
    assert CommandOk(d, k) && CommandRefsOk(d, k);
    var p := Position(d, d.commands[k].sourceLine);
    forall j | 0 <= j < p ensures d.lines[j] != d.commands[k].sourceLine {
      LinesDistinct(d, j, p);
    }
  }

  /** `Lines.IndexOf` finds a text command's source line at a position
      from which its whole run fits in the list. */
  lemma SourceFound(d: Doc, k: nat)
    requires WellFormed(d) && k < |d.commands| && d.commands[k].TextCommand?
    ensures var p := IndexOf(d.lines, d.commands[k].sourceLine);
      p == Position(d, d.commands[k].sourceLine) && 0 <= p && p + |d.commands[k].continuationLines| < |d.lines|
  {
    IndexOfSource(d, k);
    assert CommandOk(d, k) && CommandRefsOk(d, k) && LayoutOk(d, k);
  }

  /** The new continuations are old continuations of the command or
      fresh line objects. */
  lemma RelayoutConts(d: Doc, k: nat, p: nat, n: nat)
    requires Sane(d) && k < |d.commands| && d.commands[k].TextCommand? && n > 0
    requires p + |d.commands[k].continuationLines| < |d.lines|
    ensures var cs := Relayout(d, k, p, n).conts;
      forall j :: 0 <= j < |cs| ==> cs[j] in d.commands[k].continuationLines || cs[j] >= |d.pool|
  {
    var c := d.commands[k];
    var m := |c.continuationLines|;
    var cs := Relayout(d, k, p, n).conts;
    forall j | 0 <= j < |cs| ensures cs[j] in c.continuationLines || cs[j] >= |d.pool| {
      if j < m {
        assert cs[j] == c.continuationLines[j];
      }
    }
  }

  /** Whatever the new line count, the re-laid-out document is well formed,
      the command has one continuation fewer than the count, and the rest
      of the layout moves as `Reshaped` says. */
  lemma RelayoutWellFormed(d: Doc, k: nat, n: nat)
    requires WellFormed(d) && k < |d.commands| && d.commands[k].TextCommand? && n > 0
    ensures var p := Position(d, d.commands[k].sourceLine);
      && 0 <= p && p + |d.commands[k].continuationLines| < |d.lines|
      && var lay := Relayout(d, k, p, n);
        && |lay.conts| == n - 1
        && (forall id :: 0 <= id < |d.pool| ==> lay.pool[id] == d.pool[id].(lineNumber := lay.pool[id].lineNumber))
        && Reshaped(d, k, p, lay.conts, WithLayout(d, k, lay))
        && WellFormed(WithLayout(d, k, lay))
  {
    assert CommandOk(d, k) && CommandRefsOk(d, k);
    var p := Position(d, d.commands[k].sourceLine);
    RunBounds(d, k, p);
    RunFacts(d, k, p);
    var m := |d.commands[k].continuationLines|;
    if n < m + 1 {
      ShrinkShift(d, k, p, n);
      ShrinkReshaped(d, k, p, n);
    } else if n > m + 1 {
      GrowShift(d, k, p, n);
      GrowReshaped(d, k, p, n);
    } else {
      SameReshaped(d, k, p);
    }
    var lay := Relayout(d, k, p, n);
    ReshapedWellFormed(d, k, p, lay.conts, WithLayout(d, k, lay));
  }

  /** What a reshaped layout looks like line by line: the lines up to p
      are the same objects with the same contents, the new run consists of
      continuations, and every line after the old run is the same object
      with only its LineNumber moved. */
  lemma ReshapedViews(d: Doc, k: nat, p: nat, cs: seq<nat>, d1: Doc, n: nat)
    requires Sane(d) && k < |d.commands| && d.commands[k].TextCommand? && RunShape(d, k, p)
    requires Reshaped(d, k, p, cs, d1) && Sane(d1) && n == |cs| + 1
    requires forall id :: 0 <= id < |d.pool| ==> d1.pool[id] == d.pool[id].(lineNumber := d1.pool[id].lineNumber)
    ensures var m := |d.commands[k].continuationLines|;
      && (forall i {:trigger d.lines[i]} :: 0 <= i <= p ==> d1.lines[i] == d.lines[i] && Line(d1, i) == Line(d, i))
      && (forall i :: p < i < p + n ==> Kind(d1, i) == TextContinuation && Line(d1, i).command.None?)
      && (forall o {:trigger d.lines[o]} :: p + m + 1 <= o < |d.lines| ==>
            d1.lines[o + n - (m + 1)] == d.lines[o] && Line(d1, o + n - (m + 1)) == Moved(Line(d, o), n - (m + 1)))
  {
    var m := |d.commands[k].continuationLines|;
    forall i | 0 <= i <= p ensures d1.lines[i] == d.lines[i] && Line(d1, i) == Line(d, i) {
      var id := d.lines[i];
      assert d1.pool[id].lineNumber == i == d.pool[id].lineNumber;
    }
    forall i | p < i < p + n ensures Kind(d1, i) == TextContinuation && Line(d1, i).command.None? {
      assert ContinuationAt(d1, cs[i - p - 1], p + 1 + (i - p - 1));
    }
    forall o | p + m + 1 <= o < |d.lines|
      ensures d1.lines[o + n - (m + 1)] == d.lines[o] && Line(d1, o + n - (m + 1)) == Moved(Line(d, o), n - (m + 1))
    {
      var id := d.lines[o];
      assert d1.pool[id].lineNumber == o + n - (m + 1) && d.pool[id].lineNumber == o;
    }
  }
}
