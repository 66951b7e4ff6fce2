/** What Externalize and Internalize share (TenkiConv/Program.cs:93-95 and
    176-252): the three id-keyed tables of a script, the lines a command
    owns, and the numbering of dialogue commands. */
module Tables {
  import opened Wrappers
  import opened Classifier
  import opened Document

  /** `Translations`, `Speakers` and `Names`; None is a null reference. */
  datatype Tables = Tables(
    translations: Option<map<int, string>>,
    speakers: Option<map<int, string>>,
    names: Option<map<int, string>>)

  const NoTables := Tables(Option.None, Option.None, Option.None)

  /** `CoalesceStrings(values)`: the first value that is neither null nor
      empty, or "" when there is none. */
  function CoalesceStrings(values: seq<Option<string>>): (r: string)
    ensures r != "" ==> exists i :: 0 <= i < |values| && values[i] == Some(r)
  {
    if |values| == 0 then ""
    else if values[0].Some? && values[0].value != "" then values[0].value
    else CoalesceStrings(values[1..])
  }

  /** A value counts for CoalesceStrings when it is present and not empty. */
  predicate Filled(v: Option<string>) {
    v.Some? && v.value != ""
  }

  /** CoalesceStrings picks the first filled value, and gives "" exactly
      when no value is filled. */
  lemma {:induction false} CoalesceFirst(values: seq<Option<string>>)
    ensures CoalesceStrings(values) == "" <==> forall i :: 0 <= i < |values| ==> !Filled(values[i])
    ensures forall i :: 0 <= i < |values| && Filled(values[i]) && (forall j :: 0 <= j < i ==> !Filled(values[j])) ==>
      CoalesceStrings(values) == values[i].value
  {
    if |values| > 0 {
      CoalesceFirst(values[1..]);
      assert forall i :: 1 <= i < |values| ==> values[1..][i - 1] == values[i];
    }
  }

  /** The number of dialogue commands among the first `k` commands: the
      dialogue command at index k gets id `TextCount(cs, k) + 1`. */
  function TextCount(cs: seq<ScriptCommand>, k: nat): (r: nat)
    requires k <= |cs|
    ensures r <= k
  {
    if k == 0 then 0 else TextCount(cs, k - 1) + (if cs[k - 1].TextCommand? then 1 else 0)
  }

  /** Dialogue commands get different ids, in command order. */
  lemma {:induction false} TextCountMonotone(cs: seq<ScriptCommand>, x: nat, y: nat)
    requires x < y <= |cs| && cs[x].TextCommand?
    ensures TextCount(cs, x) < TextCount(cs, y)
    decreases y - x
  {
    if y > x + 1 {
      TextCountMonotone(cs, x, y - 1);
    }
  }

  /** `line.Text = t` on the line object `id`. */
  function SetText(d: Doc, id: nat, t: string): (r: Doc)
    requires id < |d.pool|
    ensures SameShape(d, r) && r.sections == d.sections
    ensures |r.pool| == |d.pool| && r.pool[id].text == t
    ensures forall j :: 0 <= j < |d.pool| && j != id ==> r.pool[j] == d.pool[j]
  {
    d.(pool := d.pool[id := d.pool[id].(text := t)])
  }

  /** The line objects a command owns: its source line and, for dialogue,
      its continuation lines and its speaker line. */
  predicate Owns(d: Doc, k: nat, id: nat)
    requires k < |d.commands|
  {
    var c := d.commands[k];
    id == c.sourceLine || (c.TextCommand? && (id in c.continuationLines || c.nameLine == Some(id)))
  }

  /** In a well-formed document the source line of a command carries it, a
      continuation is continuation-kind and numbered inside the run, and a
      speaker line is speaker-kind right above the source line. */
  lemma OwnedLine(d: Doc, k: nat, id: nat)
    requires WellFormed(d) && k < |d.commands| && Owns(d, k, id)
    ensures id < |d.pool|
    ensures var c := d.commands[k];
      var p := Position(d, c.sourceLine);
      && (id == c.sourceLine ==> d.pool[id].command == Some(k))
      && (c.TextCommand? && id in c.continuationLines ==>
            d.pool[id].kind == TextContinuation && p < Position(d, id) <= p + |c.continuationLines|)
      && (c.TextCommand? && c.nameLine == Some(id) ==>
            d.pool[id].kind == Speaker && Position(d, id) == p - 1)
  {
    assert CommandOk(d, k) && CommandRefsOk(d, k);
    var c := d.commands[k];
    if c.TextCommand? {
      assert LayoutOk(d, k);
      var p := Position(d, c.sourceLine);
      if id in c.continuationLines {
        var i :| 0 <= i < |c.continuationLines| && c.continuationLines[i] == id;
        assert d.lines[p + 1 + i] == id;
        assert LineOk(d, p + 1 + i);
        assert Kind(d, p + 1 + i) == TextContinuation;
        assert Position(d, id) == p + 1 + i;
      }
      if c.nameLine == Some(id) {
        assert LineOk(d, p - 1);
        assert Kind(d, p - 1) == Speaker;
      }
    }
  }

  /** No line object is owned by two commands. */
  lemma OwnersUnique(d: Doc, x: nat, y: nat, id: nat)
    requires WellFormed(d) && x < |d.commands| && y < |d.commands|
    requires Owns(d, x, id) && Owns(d, y, id)
    ensures x == y
  {
    OwnedLine(d, x, id);
    OwnedLine(d, y, id);
    var cx, cy := d.commands[x], d.commands[y];
    assert CommandOk(d, x) && CommandOk(d, y);
    var px, py := Position(d, cx.sourceLine), Position(d, cy.sourceLine);
    if id != cx.sourceLine && id != cy.sourceLine && d.pool[id].kind == TextContinuation {
      if px < py {
        RunsDisjoint(d, x, y);
      } else if py < px {
        RunsDisjoint(d, y, x);
      }
      SameSource(d, x, y);
    } else if id != cx.sourceLine && id != cy.sourceLine {
      SameSource(d, x, y);
    }
  }

  /** The positions of a dialogue command's lines: the source line at p,
      continuation i at p + 1 + i and the speaker line at p - 1. */
  lemma RunPositions(d: Doc, k: nat)
    requires WellFormed(d) && k < |d.commands| && d.commands[k].TextCommand?
    ensures CommandRefsOk(d, k)
    ensures var c := d.commands[k];
      var p := Position(d, c.sourceLine);
      && (forall i :: 0 <= i < |c.continuationLines| ==> Position(d, c.continuationLines[i]) == p + 1 + i)
      && (c.nameLine.Some? ==> Position(d, c.nameLine.value) == p - 1)
  {
    assert CommandOk(d, k) && CommandRefsOk(d, k) && LayoutOk(d, k);
    var c := d.commands[k];
    var p := Position(d, c.sourceLine);
    forall i | 0 <= i < |c.continuationLines| ensures Position(d, c.continuationLines[i]) == p + 1 + i {
      assert LineOk(d, p + 1 + i);
    }
    if c.nameLine.Some? {
      assert LineOk(d, p - 1);
    }
  }

  /** Two commands whose source lines sit at one position are one command. */
  lemma SameSource(d: Doc, x: nat, y: nat)
    requires WellFormed(d) && x < |d.commands| && y < |d.commands|
    requires d.commands[x].sourceLine < |d.pool| && d.commands[y].sourceLine < |d.pool|
    requires Position(d, d.commands[x].sourceLine) == Position(d, d.commands[y].sourceLine)
    ensures x == y
  {
    assert CommandOk(d, x) && CommandOk(d, y);
  }
}
