/** What `Script.Internalize` (TenkiConv/Program.cs:223-252) does with any
    three tables, not only with those Externalize made.

    The turn for a dialogue command reads only lines that the command owns
    and that no earlier turn has written, so whether it succeeds is decided
    on the original script (`Internalizable`). When every turn succeeds the
    result is the script with, for each dialogue command, its dialogue lines
    replaced by the lines of its translation and the name at the head of
    its speaker line replaced by the name behind the key; no other line
    changes its text and the lines that are not continuations keep their
    order. Each dialogue record gets the new line count in Field14 and the
    position of the command's first line in Field10. */
module InternalizeEffect {
  import opened Wrappers
  import opened Strings
  import Patterns
  import opened Classifier
  import opened Records
  import opened Document
  import opened TextChange
  import opened Tables
  import opened Externalizing
  import opened Internalizing
  import opened RoundTrip

  // ---------------------------------------------------------------------
  // The checks of a turn, stated on the original script

  /** The number of the "@L<n>" key on dialogue command k's source line. */
  function LineKeyId(d: Doc, k: nat): Option<int>
    requires Sane(d) && k < |d.commands| && d.commands[k].TextCommand?
  {
    assert CommandRefsOk(d, k);
    var key := d.pool[d.commands[k].sourceLine].text;
    if StartsWith(key, "@L") then ParseInt32(key[2..]) else Option.None
  }

  /** The number of the "@N<id>" key that NamePattern finds as the name of
      a speaker line. */
  function NameKeyId(t: string): Option<int> {
    match Patterns.MatchName(t)
    case None => Option.None
    case Some(key) => if StartsWith(key, "@N") then ParseInt32(key[2..]) else Option.None
  }

  /** The dialogue half of turn k finds its key, its blanks, its
      translation and its record. */
  predicate TextReady(d: Doc, tr: map<int, string>, k: nat)
    requires Sane(d) && k < |d.commands| && d.commands[k].TextCommand?
  {
    && LineKeyId(d, k).Some? && LineKeyId(d, k).value in tr
    && AllBlank(d, k) && HasEntry(d, k)
  }

  /** The speaker half of turn k finds its key and its name. */
  predicate NameReady(d: Doc, nm: map<int, string>, k: nat)
    requires Sane(d) && k < |d.commands| && d.commands[k].TextCommand?
  {
    assert CommandRefsOk(d, k);
    var nl := d.commands[k].nameLine;
    nl.Some? ==> NameKeyId(d.pool[nl.value].text).Some? && NameKeyId(d.pool[nl.value].text).value in nm
  }

  predicate Internalizable(d: Doc, tr: map<int, string>, nm: map<int, string>, k: nat)
    requires Sane(d) && k < |d.commands| && d.commands[k].TextCommand?
  {
    TextReady(d, tr, k) && NameReady(d, nm, k)
  }

  /** Every dialogue command from a to b (exclusive) passes its turn. */
  predicate ReadyBetween(d: Doc, tr: map<int, string>, nm: map<int, string>, a: nat, b: nat)
    requires Sane(d) && b <= |d.commands|
  {
    forall j :: a <= j < b && d.commands[j].TextCommand? ==> Internalizable(d, tr, nm, j)
  }

  predicate AllInternalizable(d: Doc, tr: map<int, string>, nm: map<int, string>)
    requires Sane(d)
  {
    ReadyBetween(d, tr, nm, 0, |d.commands|)
  }

  /** Dialogue command k is the first one whose turn fails. */
  predicate FirstFailure(d: Doc, tr: map<int, string>, nm: map<int, string>, k: nat)
    requires Sane(d)
  {
    && k < |d.commands| && d.commands[k].TextCommand? && !Internalizable(d, tr, nm, k)
    && ReadyBetween(d, tr, nm, 0, k)
  }

  /** The new dialogue lines of command k: its translation, split. */
  function NewLines(d: Doc, tr: map<int, string>, k: nat): (r: seq<string>)
    requires Sane(d) && k < |d.commands| && d.commands[k].TextCommand? && TextReady(d, tr, k)
    ensures |r| > 0
  {
    TranslationLines(tr[LineKeyId(d, k).value])
  }

  /** The new speaker line: the name behind the key, then the rest of the
      line after the key. */
  function NewName(t: string, nm: map<int, string>): string
    requires NameKeyId(t).Some? && NameKeyId(t).value in nm
  {
    var key := Patterns.MatchName(t).value;
    nm[NameKeyId(t).value] + t[|key|..]
  }

  /** The speaker half of turn k, once it is known to succeed. */
  function Renamed(d: Doc, nm: map<int, string>, x: Doc, k: nat): (r: Doc)
    requires Sane(d) && k < |d.commands| && d.commands[k].TextCommand? && NameReady(d, nm, k)
    requires d.commands[k].nameLine.Some? ==> d.commands[k].nameLine.value < |x.pool|
    ensures SameShape(x, r) && r.sections == x.sections
  {
    assert CommandRefsOk(d, k);
    var nl := d.commands[k].nameLine;
    if nl.Some? then SetText(x, nl.value, NewName(d.pool[nl.value].text, nm)) else x
  }

  // ---------------------------------------------------------------------
  // The state after the turns before k

  /** `c'` is `c` with other continuation lines, if any. */
  predicate Recut(c: ScriptCommand, c': ScriptCommand) {
    if c.TextCommand? then c'.TextCommand? && c' == c.(continuationLines := c'.continuationLines) else c' == c
  }

  /** The commands before k may have other continuations, the others are
      as in `d`. */
  predicate Recuts(d: Doc, x: Doc, k: nat) {
    && |x.commands| == |d.commands|
    && forall j :: 0 <= j < |d.commands| ==> Recut(d.commands[j], x.commands[j]) && (j >= k ==> x.commands[j] == d.commands[j])
  }

  /** Every line object of `d` is still there, with its kind and command. */
  predicate PoolKept(d: Doc, x: Doc) {
    && |x.pool| >= |d.pool|
    && forall id :: 0 <= id < |d.pool| ==> x.pool[id].kind == d.pool[id].kind && x.pool[id].command == d.pool[id].command
  }

  /** The lines that no dialogue command before k owns keep their text. */
  predicate TextsKept(d: Doc, x: Doc, k: nat)
    requires k <= |d.commands| && |x.pool| >= |d.pool|
  {
    forall id :: 0 <= id < |d.pool| && !OwnedBefore(d, k, id) ==> x.pool[id].text == d.pool[id].text
  }

  /** Dialogue command j of `x` reads its new lines and its speaker line
      its new name. */
  predicate Translated(d: Doc, tr: map<int, string>, nm: map<int, string>, x: Doc, j: nat)
    requires Sane(d) && Sane(x) && j < |d.commands| && j < |x.commands| && d.commands[j].TextCommand?
    requires Recut(d.commands[j], x.commands[j]) && Internalizable(d, tr, nm, j)
  {
    assert CommandRefsOk(d, j) && CommandRefsOk(x, j);
    var nl := d.commands[j].nameLine;
    && DialogueLines(x, j) == NewLines(d, tr, j)
    && (nl.Some? ==> x.pool[nl.value].text == NewName(d.pool[nl.value].text, nm))
  }

  ghost predicate TranslatedBefore(d: Doc, tr: map<int, string>, nm: map<int, string>, x: Doc, k: nat)
    requires Sane(d) && Sane(x) && k <= |d.commands| && Recuts(d, x, k) && ReadyBetween(d, tr, nm, 0, k)
  {
    forall j :: 0 <= j < k && d.commands[j].TextCommand? ==> Translated(d, tr, nm, x, j)
  }

  /** Record i of section s once the dialogue commands before k have been
      through ChangeText: Field14 holds the command's new line count. */
  function Refilled(d: Doc, x: Doc, k: nat, s: nat, i: nat): SptEntry
    requires Sane(d) && s < |d.sections| && i < |d.sections[s].entries| && |x.commands| == |d.commands|
  {
    assert SectionRefsOk(d, s);
    var sc := d.sections[s].commands;
    var e := d.sections[s].entries[i];
    if i < |sc| && sc[i] < k && x.commands[sc[i]].TextCommand? then
      var c := x.commands[sc[i]];
      e.(field14 := LineCount(c, |c.continuationLines| + 1))
    else e
  }

  predicate SectionRefilled(d: Doc, x: Doc, k: nat, s: nat)
    requires Sane(d) && s < |d.sections| && s < |x.sections| && |x.commands| == |d.commands|
  {
    && x.sections[s].path == d.sections[s].path && x.sections[s].commands == d.sections[s].commands
    && |x.sections[s].entries| == |d.sections[s].entries|
    && forall i :: 0 <= i < |d.sections[s].entries| ==> x.sections[s].entries[i] == Refilled(d, x, k, s, i)
  }

  predicate RefilledUpTo(d: Doc, x: Doc, k: nat)
    requires Sane(d) && |x.commands| == |d.commands|
  {
    && |x.sections| == |d.sections|
    && forall s :: 0 <= s < |d.sections| ==> SectionRefilled(d, x, k, s)
  }

  /** The invariant of the Internalize loop before command k. */
  ghost predicate IntInv(d: Doc, tr: map<int, string>, nm: map<int, string>, x: Doc, k: nat) {
    && WellFormed(d) && WellFormed(x) && k <= |d.commands|
    && ReadyBetween(d, tr, nm, 0, k)
    && Recuts(d, x, k) && PoolKept(d, x)
    && Skeleton(x.pool, x.lines) == Skeleton(d.pool, d.lines)
    && TextsKept(d, x, k)
    && TranslatedBefore(d, tr, nm, x, k)
    && RefilledUpTo(d, x, k)
  }

  // ---------------------------------------------------------------------
  // One turn

  /** The dialogue half of turn k succeeds exactly when its checks pass on
      the original script, and then it is ChangeText with the new lines. */
  lemma TurnText(d: Doc, tr: map<int, string>, nm: map<int, string>, x: Doc, k: nat)
    requires IntInv(d, tr, nm, x, k) && k < |d.commands| && d.commands[k].TextCommand?
    ensures var r := InternalizeText(x, tr, k);
      && (r.Ok? <==> TextReady(d, tr, k))
      && (r.Err? ==> r.error.command == k)
      && (r.Ok? ==> HasEntry(x, k) && r.value == ChangeText(x, k, NewLines(d, tr, k)))
  {
    assert CommandRefsOk(d, k);
    var c := d.commands[k];
    assert x.commands[k] == c;
    NotOwnedBefore(d, k, c.sourceLine);
    assert LineKeyId(d, k) == LineKeyId(x, k);
    assert AllBlank(x, k) <==> AllBlank(d, k) by {
      forall i | 0 <= i < |c.continuationLines| ensures x.pool[c.continuationLines[i]].text == d.pool[c.continuationLines[i]].text {
        NotOwnedBefore(d, k, c.continuationLines[i]);
      }
    }
    assert HasEntry(x, k) <==> HasEntry(d, k) by {
      assert SectionRefilled(d, x, k, c.section);
    }
  }

  /** The speaker half of turn k succeeds exactly when its checks pass on
      the original script, given that the speaker line still holds its
      original text. */
  lemma TurnName(d: Doc, nm: map<int, string>, x1: Doc, k: nat)
    requires Sane(d) && Sane(x1) && k < |d.commands| && k < |x1.commands| && d.commands[k].TextCommand?
    requires x1.commands[k].TextCommand? && x1.commands[k].nameLine == d.commands[k].nameLine
    requires d.commands[k].nameLine.Some? ==>
      var nl := d.commands[k].nameLine.value;
      nl < |x1.pool| && nl < |d.pool| && x1.pool[nl].text == d.pool[nl].text
    ensures var r := InternalizeName(x1, nm, k);
      && (r.Ok? <==> NameReady(d, nm, k))
      && (r.Err? ==> r.error.command == k)
      && (r.Ok? ==> r.value == Renamed(d, nm, x1, k))
  {
    assert CommandRefsOk(d, k) && CommandRefsOk(x1, k);
  }

  /** Every line object that command k does not own in `x1` keeps its text
      through the turn. */
  lemma TurnFrame(d: Doc, nm: map<int, string>, x: Doc, k: nat, text: seq<string>)
    requires WellFormed(x) && k < |x.commands| && x.commands[k].TextCommand? && |text| > 0 && HasEntry(x, k)
    requires Sane(d) && k < |d.commands| && d.commands[k].TextCommand? && NameReady(d, nm, k)
    requires x.commands[k].nameLine == d.commands[k].nameLine
    ensures var x1 := ChangeText(x, k, text);
      && k < |x1.commands| && x1.commands[k].TextCommand?
      && x1.commands[k].sourceLine == x.commands[k].sourceLine && x1.commands[k].nameLine == x.commands[k].nameLine
      && (d.commands[k].nameLine.Some? ==> d.commands[k].nameLine.value < |x1.pool|)
      && var x2 := Renamed(d, nm, x1, k);
        forall id :: 0 <= id < |x.pool| && !Owns(x1, k, id) ==> x2.pool[id].text == x.pool[id].text
  {
    ChangeTextPool(x, k, text);
    ChangeTextCommands(x, k, text);
    assert CommandRefsOk(x, k);
  }

  /** A line object that one command owns, another does not. */
  lemma OwnedOnce(d: Doc, j: nat, k: nat, id: nat)
    requires WellFormed(d) && j < |d.commands| && k < |d.commands| && j != k && Owns(d, j, id)
    ensures !Owns(d, k, id)
  {
    if Owns(d, k, id) {
      OwnersUnique(d, j, k, id);
    }
  }

  /** Owned before k, or by command k, means owned before k + 1. */
  lemma OwnedBeforeNext(d: Doc, k: nat, id: nat)
    requires k < |d.commands|
    ensures OwnedBefore(d, k, id) ==> OwnedBefore(d, k + 1, id)
    ensures d.commands[k].TextCommand? && Owns(d, k, id) ==> OwnedBefore(d, k + 1, id)
    ensures !d.commands[k].TextCommand? ==> OwnedBefore(d, k + 1, id) == OwnedBefore(d, k, id)
  {
    if OwnedBefore(d, k, id) {
      var j :| 0 <= j < k && d.commands[j].TextCommand? && Owns(d, j, id);
      assert j < k + 1;
    }
    if OwnedBefore(d, k + 1, id) && !d.commands[k].TextCommand? {
      var j :| 0 <= j < k + 1 && d.commands[j].TextCommand? && Owns(d, j, id);
      assert j != k;
    }
  }

  /** The lines no dialogue command up to k owns keep their text. */
  lemma TextsStep(d: Doc, x: Doc, x1: Doc, x2: Doc, k: nat)
    requires WellFormed(d) && k < |d.commands| && d.commands[k].TextCommand?
    requires PoolKept(d, x) && TextsKept(d, x, k) && |x2.pool| >= |x.pool|
    requires k < |x1.commands| && x1.commands[k].TextCommand?
    requires x1.commands[k].sourceLine == d.commands[k].sourceLine && x1.commands[k].nameLine == d.commands[k].nameLine
    requires forall j :: 0 <= j < |x1.commands[k].continuationLines| ==>
      x1.commands[k].continuationLines[j] in d.commands[k].continuationLines
      || x1.commands[k].continuationLines[j] >= |d.pool|
    requires forall id :: 0 <= id < |x.pool| && !Owns(x1, k, id) ==> x2.pool[id].text == x.pool[id].text
    ensures TextsKept(d, x2, k + 1)
  {
    forall id | 0 <= id < |d.pool| && !OwnedBefore(d, k + 1, id) ensures x2.pool[id].text == d.pool[id].text {
      OwnedBeforeNext(d, k, id);
      assert !Owns(d, k, id);
      assert !Owns(x1, k, id);
    }
  }

  /** The dialogue and speaker line of command j keep their texts when the
      lines it owns do. */
  lemma TranslatedKept(d: Doc, tr: map<int, string>, nm: map<int, string>, x: Doc, x2: Doc, j: nat)
    requires Sane(d) && Sane(x) && Sane(x2) && j < |d.commands| && j < |x.commands| && j < |x2.commands|
    requires d.commands[j].TextCommand? && Recut(d.commands[j], x.commands[j]) && x2.commands[j] == x.commands[j]
    requires |x2.pool| >= |x.pool|
    requires Internalizable(d, tr, nm, j) && Translated(d, tr, nm, x, j)
    requires forall id :: 0 <= id < |x.pool| && Owns(x, j, id) ==> x2.pool[id].text == x.pool[id].text
    ensures Translated(d, tr, nm, x2, j)
  {
    assert CommandRefsOk(x, j);
    var c := x.commands[j];
    assert Owns(x, j, c.sourceLine);
    assert DialogueLines(x2, j) == DialogueLines(x, j) by {
      forall i | 0 <= i < |c.continuationLines|
        ensures x2.pool[c.continuationLines[i]].text == x.pool[c.continuationLines[i]].text
      {
        assert Owns(x, j, c.continuationLines[i]);
      }
    }
  }

  /** A dialogue command whose lines sit at p on and carry `text` reads
      `text`. */
  lemma LaidOutDialogue(y: Doc, k: nat, p: nat, text: seq<string>)
    requires Sane(y) && k < |y.commands| && y.commands[k].TextCommand? && |text| > 0
    requires p + |text| <= |y.lines| && y.lines[p] == y.commands[k].sourceLine
    requires y.commands[k].continuationLines == y.lines[p + 1..p + |text|]
    requires Line(y, p).text == text[0] && ContinuationTexts(y, p, text)
    ensures DialogueLines(y, k) == text
  {
    var conts := y.commands[k].continuationLines;
    forall i | 0 <= i < |conts| ensures y.pool[conts[i]].text == text[i + 1] {
      assert conts[i] == y.lines[p + 1 + i];
      assert Line(y, p + 1 + i).text == text[i + 1];
    }
  }

  /** Command k reads its new lines after ChangeText. */
  lemma ChangeTextDialogue(x: Doc, k: nat, text: seq<string>)
    requires WellFormed(x) && k < |x.commands| && x.commands[k].TextCommand? && |text| > 0 && HasEntry(x, k)
    ensures var x1 := ChangeText(x, k, text);
      && Sane(x1) && k < |x1.commands| && x1.commands[k].TextCommand?
      && DialogueLines(x1, k) == text
  {
    var c := x.commands[k];
    var p := Position(x, c.sourceLine);
    ChangeTextLines(x, k, text);
    ChangeTextCommands(x, k, text);
    var x1 := ChangeText(x, k, text);
    LaidOutDialogue(x1, k, p, text);
  }

  /** The dialogue commands up to k read their new lines after turn k. */
  lemma TranslatedStep(d: Doc, tr: map<int, string>, nm: map<int, string>, x: Doc, x1: Doc, x2: Doc, k: nat)
    requires Sane(d) && Sane(x) && WellFormed(x1) && Sane(x2) && k < |d.commands| && d.commands[k].TextCommand?
    requires Recuts(d, x, k) && ReadyBetween(d, tr, nm, 0, k + 1) && TranslatedBefore(d, tr, nm, x, k)
    requires |x1.commands| == |x.commands| && x2.commands == x1.commands
    requires forall j :: 0 <= j < |x.commands| && j != k ==> x1.commands[j] == x.commands[j]
    requires x1.commands[k].TextCommand? && Recut(d.commands[k], x1.commands[k])
    requires |x2.pool| >= |x.pool| && |x1.pool| >= |x.pool|
    requires forall id :: 0 <= id < |x.pool| && !Owns(x1, k, id) ==> x2.pool[id].text == x.pool[id].text
    requires DialogueLines(x1, k) == NewLines(d, tr, k)
    requires d.commands[k].nameLine.Some? ==> d.commands[k].nameLine.value < |x1.pool|
    requires x2 == Renamed(d, nm, x1, k)
    ensures Recuts(d, x2, k + 1) && TranslatedBefore(d, tr, nm, x2, k + 1)
  {
    forall j | 0 <= j < k && d.commands[j].TextCommand? ensures Translated(d, tr, nm, x2, j) {
      assert Translated(d, tr, nm, x, j);
      forall id | 0 <= id < |x.pool| && Owns(x, j, id) ensures x2.pool[id].text == x.pool[id].text {
        assert Owns(x1, j, id);
        OwnedOnce(x1, j, k, id);
      }
      TranslatedKept(d, tr, nm, x, x2, j);
    }
    assert CommandRefsOk(x1, k) && CommandRefsOk(d, k);
    var c1 := x1.commands[k];
    if d.commands[k].nameLine.Some? {
      var nl := d.commands[k].nameLine.value;
      assert c1.nameLine == Some(nl);
      NameLineApart(x1, k);
      assert DialogueLines(x2, k) == DialogueLines(x1, k) by {
        forall i | 0 <= i < |c1.continuationLines| ensures x2.pool[c1.continuationLines[i]] == x1.pool[c1.continuationLines[i]] {
          assert c1.continuationLines[i] in c1.continuationLines;
        }
      }
    }
  }

  /** The records after turn k: command k's record gets its new line count
      in Field14. */
  lemma RefillStep(d: Doc, x: Doc, x2: Doc, k: nat)
    requires WellFormed(d) && k < |d.commands| && d.commands[k].TextCommand? && HasEntry(d, k)
    requires |x.commands| == |d.commands| && RefilledUpTo(d, x, k) && x.commands[k] == d.commands[k]
    requires |x2.commands| == |d.commands| && x2.commands[k].TextCommand?
    requires forall j :: 0 <= j < |d.commands| && j != k ==> x2.commands[j] == x.commands[j]
    requires x2.commands[k].nameLine == d.commands[k].nameLine
    requires |x2.sections| == |x.sections|
    requires forall s :: 0 <= s < |x.sections| ==>
      x2.sections[s].path == x.sections[s].path && x2.sections[s].commands == x.sections[s].commands
      && |x2.sections[s].entries| == |x.sections[s].entries|
    requires var c := d.commands[k];
      && c.section < |x.sections| && c.commandIndex < |x.sections[c.section].entries|
      && x2.sections[c.section].entries[c.commandIndex]
         == x.sections[c.section].entries[c.commandIndex].(field14 := LineCount(c, |x2.commands[k].continuationLines| + 1))
    requires forall s, i ::
      (0 <= s < |x.sections| && 0 <= i < |x.sections[s].entries| && (s != d.commands[k].section || i != d.commands[k].commandIndex)) ==>
        x2.sections[s].entries[i] == x.sections[s].entries[i]
    ensures RefilledUpTo(d, x2, k + 1)
  {
    var c := d.commands[k];
    assert CommandOk(d, k);
    var k1 := k + 1;
    forall s | 0 <= s < |d.sections| ensures SectionRefilled(d, x2, k1, s) {
      assert SectionRefilled(d, x, k, s);
      assert SectionRefsOk(d, s) && SectionOk(d, s);
      forall i | 0 <= i < |d.sections[s].entries| ensures x2.sections[s].entries[i] == Refilled(d, x2, k1, s, i) {
        var sc := d.sections[s].commands;
        if s == c.section && i == c.commandIndex {
          assert i < |sc| && sc[i] == k;
        }
        if i < |sc| && sc[i] == k {
          assert d.commands[sc[i]].section == s && d.commands[sc[i]].commandIndex == i;
        }
      }
    }
  }

  /** The document after a successful turn for dialogue command k. */
  function Turned(d: Doc, tr: map<int, string>, nm: map<int, string>, x: Doc, k: nat): (r: Doc)
    requires WellFormed(x) && Sane(d) && k < |d.commands| && d.commands[k].TextCommand?
    requires k < |x.commands| && x.commands[k] == d.commands[k]
    requires Internalizable(d, tr, nm, k) && HasEntry(x, k)
  {
    var x1 := ChangeText(x, k, NewLines(d, tr, k));
    TurnFrame(d, nm, x, k, NewLines(d, tr, k));
    Renamed(d, nm, x1, k)
  }

  /** What the invariant needs of a turn's start. */
  ghost predicate TurnReady(d: Doc, tr: map<int, string>, nm: map<int, string>, x: Doc, k: nat) {
    && IntInv(d, tr, nm, x, k) && k < |d.commands| && d.commands[k].TextCommand?
    && Internalizable(d, tr, nm, k) && HasEntry(x, k) && x.commands[k] == d.commands[k]
  }

  /** The shape of the document after turn k. */
  lemma TurnShape(d: Doc, tr: map<int, string>, nm: map<int, string>, x: Doc, k: nat)
    requires TurnReady(d, tr, nm, x, k)
    ensures var x2 := Turned(d, tr, nm, x, k);
      && WellFormed(x2) && PoolKept(d, x2) && |x2.pool| >= |x.pool|
      && Skeleton(x2.pool, x2.lines) == Skeleton(d.pool, d.lines)
  {
    var T := NewLines(d, tr, k);
    var x1 := ChangeText(x, k, T);
    ChangeTextKeeps(x, k, T);
    TurnFrame(d, nm, x, k, T);
    var x2 := Renamed(d, nm, x1, k);
    SameShapeWellFormed(x1, x2);
    ChangeTextPool(x, k, T);
    ChangeTextSkeleton(x, k, T);
    SkeletonAgree(x1.pool, x2.pool, x2.lines);
  }

  /** The texts of the lines no dialogue command up to k owns, after turn k. */
  lemma TurnTexts(d: Doc, tr: map<int, string>, nm: map<int, string>, x: Doc, k: nat)
    requires TurnReady(d, tr, nm, x, k)
    ensures var x2 := Turned(d, tr, nm, x, k);
      |x2.pool| >= |d.pool| && TextsKept(d, x2, k + 1)
  {
    var T := NewLines(d, tr, k);
    var x1 := ChangeText(x, k, T);
    ChangeTextCommands(x, k, T);
    ChangeTextPool(x, k, T);
    ChangeTextConts(x, k, T);
    TurnFrame(d, nm, x, k, T);
    var x2 := Renamed(d, nm, x1, k);
    TextsStep(d, x, x1, x2, k);
  }

  /** The commands and their dialogue after turn k. */
  lemma TurnTranslated(d: Doc, tr: map<int, string>, nm: map<int, string>, x: Doc, k: nat)
    requires WellFormed(d) && WellFormed(x) && k < |d.commands| && d.commands[k].TextCommand?
    requires Recuts(d, x, k) && ReadyBetween(d, tr, nm, 0, k) && TranslatedBefore(d, tr, nm, x, k)
    requires Internalizable(d, tr, nm, k) && HasEntry(x, k) && x.commands[k] == d.commands[k]
    ensures var x2 := Turned(d, tr, nm, x, k);
      && Sane(x2) && Recuts(d, x2, k + 1) && ReadyBetween(d, tr, nm, 0, k + 1)
      && TranslatedBefore(d, tr, nm, x2, k + 1)
  {
    var T := NewLines(d, tr, k);
    var x1 := ChangeText(x, k, T);
    ChangeTextKeeps(x, k, T);
    TurnFrame(d, nm, x, k, T);
    var x2 := Renamed(d, nm, x1, k);
    SameShapeSane(x1, x2);
    ChangeTextCommands(x, k, T);
    ChangeTextPool(x, k, T);
    ChangeTextDialogue(x, k, T);
    assert ReadyBetween(d, tr, nm, 0, k + 1);
    assert forall j :: 0 <= j < |x.commands| && j != k ==> x1.commands[j] == x.commands[j];
    assert Recut(d.commands[k], x1.commands[k]);
    TranslatedStep(d, tr, nm, x, x1, x2, k);
  }

  /** The records after turn k. */
  lemma TurnRecords(d: Doc, tr: map<int, string>, nm: map<int, string>, x: Doc, k: nat)
    requires WellFormed(d) && WellFormed(x) && k < |d.commands| && d.commands[k].TextCommand?
    requires |x.commands| == |d.commands| && RefilledUpTo(d, x, k)
    requires Internalizable(d, tr, nm, k) && HasEntry(x, k) && x.commands[k] == d.commands[k]
    ensures var x2 := Turned(d, tr, nm, x, k);
      |x2.commands| == |d.commands| && RefilledUpTo(d, x2, k + 1)
  {
    var c := d.commands[k];
    var T := NewLines(d, tr, k);
    var x1 := ChangeText(x, k, T);
    TurnFrame(d, nm, x, k, T);
    var x2 := Renamed(d, nm, x1, k);
    ChangeTextCommands(x, k, T);
    ChangeTextRecords(x, k, T);
    assert SectionRefilled(d, x, k, c.section);
    RefillStep(d, x, x2, k);
  }

  /** A successful turn for dialogue command k keeps the invariant. */
  lemma TurnInv(d: Doc, tr: map<int, string>, nm: map<int, string>, x: Doc, k: nat)
    requires TurnReady(d, tr, nm, x, k)
    ensures IntInv(d, tr, nm, Turned(d, tr, nm, x, k), k + 1)
  {
    TurnShape(d, tr, nm, x, k);
    TurnTexts(d, tr, nm, x, k);
    TurnTranslated(d, tr, nm, x, k);
    TurnRecords(d, tr, nm, x, k);
  }

  /** Turn k succeeds exactly when command k passes its checks on the
      original script, fails at command k otherwise, and keeps the
      invariant. */
  lemma TurnKeeps(d: Doc, tr: map<int, string>, nm: map<int, string>, x: Doc, k: nat)
    requires IntInv(d, tr, nm, x, k) && k < |d.commands| && d.commands[k].TextCommand?
    ensures var r := InternalizeCommand(x, tr, nm, k);
      && (r.Ok? <==> Internalizable(d, tr, nm, k))
      && (r.Err? ==> r.error.command == k)
      && (r.Ok? ==> IntInv(d, tr, nm, r.value, k + 1))
  {
    TurnText(d, tr, nm, x, k);
    if TextReady(d, tr, k) {
      var c := d.commands[k];
      var T := NewLines(d, tr, k);
      var x1 := ChangeText(x, k, T);
      ChangeTextKeeps(x, k, T);
      ChangeTextPool(x, k, T);
      assert CommandRefsOk(d, k);
      if c.nameLine.Some? {
        var nl := c.nameLine.value;
        NameLineApart(x1, k);
        NotOwnedBefore(d, k, nl);
        assert x1.pool[nl].text == d.pool[nl].text;
      }
      TurnName(d, nm, x1, k);
      if NameReady(d, nm, k) {
        assert TurnReady(d, tr, nm, x, k);
        TurnInv(d, tr, nm, x, k);
      }
    }
  }

  /** A skipped command keeps the invariant. */
  lemma SkipKeeps(d: Doc, tr: map<int, string>, nm: map<int, string>, x: Doc, k: nat)
    requires IntInv(d, tr, nm, x, k) && k < |d.commands| && !d.commands[k].TextCommand?
    ensures IntInv(d, tr, nm, x, k + 1)
  {
    SkipTexts(d, x, k);
    SkipRefilled(d, x, k);
  }

  /** ... its lines keep their text ... */
  lemma SkipTexts(d: Doc, x: Doc, k: nat)
    requires Sane(d) && k < |d.commands| && !d.commands[k].TextCommand?
    requires |x.pool| >= |d.pool| && TextsKept(d, x, k)
    ensures TextsKept(d, x, k + 1)
  {
    forall id | 0 <= id < |d.pool| ensures OwnedBefore(d, k + 1, id) == OwnedBefore(d, k, id) {
      OwnedBeforeNext(d, k, id);
    }
  }

  /** ... and so do the records. */
  lemma SkipRefilled(d: Doc, x: Doc, k: nat)
    requires Sane(d) && k < |d.commands| && !d.commands[k].TextCommand?
    requires |x.commands| == |d.commands| && x.commands[k] == d.commands[k] && RefilledUpTo(d, x, k)
    ensures RefilledUpTo(d, x, k + 1)
  {
    var k1 := k + 1;
    forall s | 0 <= s < |d.sections| ensures SectionRefilled(d, x, k1, s) {
      assert SectionRefilled(d, x, k, s);
      assert SectionRefsOk(d, s);
    }
  }

  /** What the Internalize loop from command k on achieves: it succeeds
      exactly when every remaining dialogue command passes its checks, a
      failure is at the first one that does not, and success ends in the
      invariant. */
  ghost predicate FromDone(d: Doc, tr: map<int, string>, nm: map<int, string>, x: Doc, k: nat)
    requires WellFormed(d) && WellFormed(x) && |x.commands| == |d.commands| && k <= |d.commands|
  {
    var r := InternalizeFrom(x, tr, nm, k);
    && (r.Ok? <==> ReadyBetween(d, tr, nm, k, |d.commands|))
    && (r.Err? ==> FirstFailure(d, tr, nm, r.error.command))
    && (r.Ok? ==> IntInv(d, tr, nm, r.value, |d.commands|))
  }

  /** At the end of the commands the loop stops with the invariant. */
  lemma FromEnd(d: Doc, tr: map<int, string>, nm: map<int, string>, x: Doc)
    requires IntInv(d, tr, nm, x, |d.commands|)
    ensures FromDone(d, tr, nm, x, |d.commands|)
  {
  }

  /** A non-dialogue command leaves the loop's outcome to the next one. */
  lemma FromSkip(d: Doc, tr: map<int, string>, nm: map<int, string>, x: Doc, k: nat)
    requires IntInv(d, tr, nm, x, k) && k < |d.commands| && !d.commands[k].TextCommand?
    requires FromDone(d, tr, nm, x, k + 1)
    ensures FromDone(d, tr, nm, x, k)
  {
  }

  /** A dialogue turn either fails at k, the first failure, or hands the
      loop's outcome to the next command. */
  lemma FromTurn(d: Doc, tr: map<int, string>, nm: map<int, string>, x: Doc, k: nat)
    requires IntInv(d, tr, nm, x, k) && k < |d.commands| && d.commands[k].TextCommand?
    requires var r := InternalizeCommand(x, tr, nm, k);
      && (r.Ok? <==> Internalizable(d, tr, nm, k))
      && (r.Err? ==> r.error.command == k)
      && (r.Ok? ==> IntInv(d, tr, nm, r.value, k + 1) && FromDone(d, tr, nm, r.value, k + 1))
    ensures FromDone(d, tr, nm, x, k)
  {
  }

  /** The Internalize loop from command k on, by induction on the
      remaining commands. */
  lemma {:induction false} InternalizeFromSpec(d: Doc, tr: map<int, string>, nm: map<int, string>, x: Doc, k: nat)
    requires IntInv(d, tr, nm, x, k)
    ensures FromDone(d, tr, nm, x, k)
    decreases |d.commands| - k
  {
    if k == |d.commands| {
      FromEnd(d, tr, nm, x);
    } else if !d.commands[k].TextCommand? {
      SkipKeeps(d, tr, nm, x, k);
      InternalizeFromSpec(d, tr, nm, x, k + 1);
      FromSkip(d, tr, nm, x, k);
    } else {
      TurnKeeps(d, tr, nm, x, k);
      var r1 := InternalizeCommand(x, tr, nm, k);
      if r1.Ok? {
        InternalizeFromSpec(d, tr, nm, r1.value, k + 1);
      }
      FromTurn(d, tr, nm, x, k);
    }
  }

  /** The invariant holds before the first turn. */
  lemma IntStart(d: Doc, tr: map<int, string>, nm: map<int, string>)
    requires WellFormed(d)
    ensures IntInv(d, tr, nm, d, 0)
  {
    forall s | 0 <= s < |d.sections| ensures SectionRefilled(d, d, 0, s) {
      assert SectionRefsOk(d, s);
    }
  }

  // ---------------------------------------------------------------------
  // The whole of Internalize

  /** `e` is what Internalize makes of `d` when every turn succeeds: well
      formed; each command with its section, index, source and speaker
      line; every line object of `d` still there with its kind; the lines
      that are not continuations in the same order; the lines no dialogue
      command owns with their texts; each dialogue command reading its new
      lines and its new name; and each dialogue record with the new line
      count in Field14 and the position of the command's first line in
      Field10. */
  ghost predicate Internalized(d: Doc, tr: map<int, string>, nm: map<int, string>, e: Doc)
    requires WellFormed(d) && AllInternalizable(d, tr, nm)
  {
    && WellFormed(e)
    && Recuts(d, e, |d.commands|) && PoolKept(d, e)
    && Skeleton(e.pool, e.lines) == Skeleton(d.pool, d.lines)
    && TextsKept(d, e, |d.commands|)
    && TranslatedBefore(d, tr, nm, e, |d.commands|)
    && Sane(e.(sections := d.sections)) && RecordsRemade(e.(sections := d.sections), e)
  }

  /** After the loop and UpdateLineNumbers, the lines are as the loop left
      them. */
  lemma IntEndLines(d: Doc, tr: map<int, string>, nm: map<int, string>, x: Doc, e: Doc)
    requires IntInv(d, tr, nm, x, |d.commands|)
    requires e == x.(sections := e.sections) && StampedUpTo(x, e, |d.commands|)
    ensures WellFormed(e) && Recuts(d, e, |d.commands|) && TranslatedBefore(d, tr, nm, e, |d.commands|)
  {
    var n := |d.commands|;
    assert SameShape(x, e) by {
      forall s | 0 <= s < |x.sections| ensures e.sections[s].commands == x.sections[s].commands {
        assert SectionStamped(x, e, n, s);
      }
    }
    SameShapeWellFormed(x, e);
    forall j | 0 <= j < n && d.commands[j].TextCommand? ensures Translated(d, tr, nm, e, j) {
      assert Translated(d, tr, nm, x, j);
      assert DialogueLines(e, j) == DialogueLines(x, j);
    }
  }

  /** ... and the records are remade on the new layout. */
  lemma IntEndRecords(d: Doc, x: Doc, e: Doc)
    requires WellFormed(d) && Sane(x) && |x.commands| == |d.commands| && RefilledUpTo(d, x, |d.commands|)
    requires e == x.(sections := e.sections) && StampedUpTo(x, e, |d.commands|)
    ensures Sane(e.(sections := d.sections)) && RecordsRemade(e.(sections := d.sections), e)
  {
    var n := |d.commands|;
    forall s | 0 <= s < |d.sections| ensures d.sections[s].commands == x.sections[s].commands {
      assert SectionRefilled(d, x, n, s);
    }
    RecordsOnly(x, d.sections);
    var D := e.(sections := d.sections);
    assert D == x.(sections := d.sections);
    forall s | 0 <= s < |d.sections| ensures SectionRemade(D, e, s) {
      assert SectionRefilled(d, x, n, s);
      assert SectionStamped(x, e, n, s);
      assert SectionRefsOk(d, s);
      forall i | 0 <= i < |d.sections[s].entries| ensures e.sections[s].entries[i] == Remade(D, s, i) {
        var sc := d.sections[s].commands;
        if i < |sc| && x.commands[sc[i]].TextCommand? {
          assert Anchor(D, sc[i]) == Anchor(x, sc[i]);
        }
      }
    }
  }

  /** After the loop, UpdateLineNumbers succeeds and leaves the script
      internalized. */
  lemma IntEnd(d: Doc, tr: map<int, string>, nm: map<int, string>, x: Doc)
    requires IntInv(d, tr, nm, x, |d.commands|) && AllInternalizable(d, tr, nm)
    ensures UpdateLineNumbers(x).Ok? && Internalized(d, tr, nm, UpdateLineNumbers(x).value)
  {
    UpdateLineNumbersSpec(x);
    forall k | 0 <= k < |x.commands| && x.commands[k].TextCommand? ensures HasEntry(x, k) {
      assert SectionRefilled(d, x, |d.commands|, d.commands[k].section);
    }
    var e := UpdateLineNumbers(x).value;
    IntEndLines(d, tr, nm, x, e);
    IntEndRecords(d, x, e);
  }

  /** Internalize with all three tables: it succeeds exactly when every
      dialogue command passes its checks on the original script, fails at
      the first one that does not, and otherwise drops the tables and
      leaves the internalized script. */
  lemma InternalizeSpec(d: Doc, t: Tables)
    requires WellFormed(d) && t.translations.Some? && t.speakers.Some? && t.names.Some?
    ensures var r := Internalize(d, t);
      var tr := t.translations.value;
      var nm := t.names.value;
      && (r.Ok? <==> AllInternalizable(d, tr, nm))
      && (r.Err? ==> FirstFailure(d, tr, nm, r.error.command))
      && (r.Ok? ==> r.value.1 == NoTables && Internalized(d, tr, nm, r.value.0))
  {
    var tr, nm := t.translations.value, t.names.value;
    IntStart(d, tr, nm);
    InternalizeFromSpec(d, tr, nm, d, 0);
    assert FromDone(d, tr, nm, d, 0);
    var r1 := InternalizeFrom(d, tr, nm, 0);
    if r1.Ok? {
      IntEnd(d, tr, nm, r1.value);
    }
  }
}
