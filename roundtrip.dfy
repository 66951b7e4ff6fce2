/** Externalize followed by Internalize (TenkiConv/Program.cs:176-252): on a
    script whose dialogue lines hold no newline and no "\n" escape, the translation
    tables carry every dialogue and speaker name out and back unchanged, so
    the second pass restores every line; only the dialogue records change,
    to the line count and first-line position that the program writes. */
module RoundTrip {
  import opened Wrappers
  import opened Strings
  import Patterns
  import opened Classifier
  import opened Records
  import opened Document
  import opened Relayout
  import opened TextChange
  import opened Tables
  import opened Externalizing
  import opened Internalizing

  /** A line text survives `Join` and then `Replace("\\n", "\n").Split('\n')`. */
  predicate Plain(t: string) {
    '\n' !in t && NoEscape(t)
  }

  lemma TranslationOfJoin(xs: seq<string>)
    requires |xs| > 0 && forall i :: 0 <= i < |xs| ==> Plain(xs[i])
    ensures TranslationLines(Join(xs)) == xs
  {
    JoinNoEscape(xs);
    ReplaceEscapesNoEscape(Join(xs));
    SplitJoin(xs);
  }

  /** A key character is neither white space, nor '（', nor a newline. */
  predicate KeyChar(c: char) {
    !IsWhiteSpace(c) && c != Patterns.FullWidthOpen && c != '\n'
  }

  lemma KeyParts(n: nat)
    ensures StartsWith(LineKey(n), "@L") && LineKey(n)[2..] == NatToString(n)
    ensures StartsWith(NameKey(n), "@N") && NameKey(n)[2..] == NatToString(n)
    ensures forall i :: 0 <= i < |NameKey(n)| ==> KeyChar(NameKey(n)[i])
  {
    var s := NatToString(n);
    assert forall i :: 0 <= i < |s| ==> NameKey(n)[i + 2] == s[i];
  }

  /** NamePattern on a speaker line whose name was replaced by a key: the
      key is the name group, since the lazy name cannot stop inside it. */
  lemma {:induction false} KeyMatch(key: string, t: string, name: string)
    requires Patterns.MatchName(t) == Some(name)
    requires forall i :: 0 <= i < |key| ==> KeyChar(key[i])
    ensures Patterns.MatchName(key + t[|name|..]) == Some(key)
  {
    var s := key + t[|name|..];
    var j :| |name| <= j <= |t| && Patterns.AllWhiteSpace(t, |name|, j) && Patterns.IdTagAt(t, j);
    assert s[|key|..] == t[|name|..];
    SuffixWhiteSpace(s, t, |key|, |name|, j);
    SuffixIdTag(s, t, |key|, |name|, j);
    assert Patterns.NameMatchAt(s, |key|);
    forall j0 | 0 <= j0 < |key| ensures !Patterns.NameMatchAt(s, j0) {
      assert KeyChar(s[j0]);
    }
    var r := Patterns.MatchName(s);
    assert r.Some?;
    assert |r.value| == |key|;
    assert r.value == s[..|key|] == key;
  }

  /** White space after position q of t is white space at the same
      distance after p in a string with the same tail. */
  lemma SuffixWhiteSpace(s: string, t: string, p: nat, q: nat, j: nat)
    requires p <= |s| && q <= j <= |t| && s[p..] == t[q..]
    requires Patterns.AllWhiteSpace(t, q, j)
    ensures Patterns.AllWhiteSpace(s, p, j - q + p)
  {
    forall i | p <= i < j - q + p ensures IsWhiteSpace(s[i]) {
      assert s[i] == s[p..][i - p] == t[q..][i - p] == t[i - p + q];
    }
  }

  /** The id tag at position j of t sits at the same distance after p in a
      string with the same tail. */
  lemma SuffixIdTag(s: string, t: string, p: nat, q: nat, j: nat)
    requires p <= |s| && q <= j <= |t| && s[p..] == t[q..]
    requires Patterns.IdTagAt(t, j)
    ensures Patterns.IdTagAt(s, j - q + p)
  {
    var j' := j - q + p;
    forall i | j' <= i < j' + 6 ensures s[i] == t[i - j' + j] {
      assert s[i] == s[p..][i - p] == t[q..][i - p];
    }
  }

  /** The source line and the continuation lines of a well-formed command
      sit at consecutive positions, so they are distinct objects. */
  lemma RunDistinct(d: Doc, k: nat)
    requires WellFormed(d) && k < |d.commands| && d.commands[k].TextCommand?
    ensures CommandRefsOk(d, k)
    ensures var ids := [d.commands[k].sourceLine] + d.commands[k].continuationLines;
      && (forall j :: 0 <= j < |ids| ==> ids[j] < |d.pool|)
      && DistinctFrom(ids, 0)
  {
    RunPositions(d, k);
    var c := d.commands[k];
    var ids := [c.sourceLine] + c.continuationLines;
    var p := Position(d, c.sourceLine);
    assert forall j :: 0 <= j < |ids| ==> ids[j] < |d.pool| && d.pool[ids[j]].lineNumber == p + j;
  }

  /** The source and continuation lines of every dialogue command are
      plain. Other lines (the speaker lines, the code) may hold anything. */
  ghost predicate DialoguesPlain(d: Doc)
    requires Sane(d)
  {
    forall k, j :: 0 <= k < |d.commands| && d.commands[k].TextCommand? && 0 <= j < |DialogueLines(d, k)| ==>
      Plain(DialogueLines(d, k)[j])
  }

  /** In particular, the dialogues are plain when every line of the script
      is. */
  lemma DialoguePlain(d: Doc)
    requires WellFormed(d)
    requires forall i :: 0 <= i < |d.lines| ==> Plain(Line(d, i).text)
    ensures DialoguesPlain(d)
  {
    forall k, j | 0 <= k < |d.commands| && d.commands[k].TextCommand? && 0 <= j < |DialogueLines(d, k)|
      ensures Plain(DialogueLines(d, k)[j])
    {
      assert CommandOk(d, k) && CommandRefsOk(d, k) && LayoutOk(d, k);
      var c := d.commands[k];
      var p := Position(d, c.sourceLine);
      if j == 0 {
        assert Plain(Line(d, p).text);
      } else {
        assert Plain(Line(d, p + j).text);
      }
    }
  }

  // ---------------------------------------------------------------------
  // The records after the round trip

  /** Record i of section s after Externalize and Internalize: the record
      of a dialogue command holds its line count (one more with a speaker
      line) in Field14 and the position of its first line in Field10. */
  function Remade(d: Doc, s: nat, i: nat): SptEntry
    requires Sane(d) && s < |d.sections| && i < |d.sections[s].entries|
  {
    assert SectionRefsOk(d, s);
    var sc := d.sections[s].commands;
    var e := d.sections[s].entries[i];
    if i < |sc| && d.commands[sc[i]].TextCommand? then
      var c := d.commands[sc[i]];
      e.(field14 := LineCount(c, |c.continuationLines| + 1), field10 := Anchor(d, sc[i]))
    else e
  }

  /** `d'` is `d` with every record remade. */
  predicate RecordsRemade(d: Doc, d': Doc)
    requires Sane(d)
  {
    && d' == d.(sections := d'.sections)
    && |d'.sections| == |d.sections|
    && forall s :: 0 <= s < |d.sections| ==> SectionRemade(d, d', s)
  }

  predicate SectionRemade(d: Doc, d': Doc, s: nat)
    requires Sane(d) && s < |d.sections| && s < |d'.sections|
  {
    && d'.sections[s].path == d.sections[s].path && d'.sections[s].commands == d.sections[s].commands
    && |d'.sections[s].entries| == |d.sections[s].entries|
    && forall i :: 0 <= i < |d.sections[s].entries| ==> d'.sections[s].entries[i] == Remade(d, s, i)
  }

  /** Record i of section s once the dialogue commands before k have been
      through ChangeText: Field14 holds the line count. */
  function Recounted(d: Doc, k: nat, s: nat, i: nat): SptEntry
    requires Sane(d) && s < |d.sections| && i < |d.sections[s].entries|
  {
    assert SectionRefsOk(d, s);
    var sc := d.sections[s].commands;
    var e := d.sections[s].entries[i];
    if i < |sc| && sc[i] < k && d.commands[sc[i]].TextCommand? then
      var c := d.commands[sc[i]];
      e.(field14 := LineCount(c, |c.continuationLines| + 1))
    else e
  }

  predicate SectionRecounted(d: Doc, x: Doc, k: nat, s: nat)
    requires Sane(d) && s < |d.sections| && s < |x.sections|
  {
    && x.sections[s].path == d.sections[s].path && x.sections[s].commands == d.sections[s].commands
    && |x.sections[s].entries| == |d.sections[s].entries|
    && forall i :: 0 <= i < |d.sections[s].entries| ==> x.sections[s].entries[i] == Recounted(d, k, s, i)
  }

  predicate RecountedUpTo(d: Doc, x: Doc, k: nat)
    requires Sane(d)
  {
    && |x.sections| == |d.sections|
    && forall s :: 0 <= s < |d.sections| ==> SectionRecounted(d, x, k, s)
  }

  // ---------------------------------------------------------------------
  // The Internalize loop on an externalized script

  /** What the round trip needs of a script `d`, and `e` and `t` are what
      Externalize made of it. */
  ghost predicate Carried(d: Doc, e: Doc, t: Tables) {
    && WellFormed(d) && AllExternalizable(d)
    && |d.commands| <= Int32Max
    && DialoguesPlain(d)
    && (forall k :: 0 <= k < |d.commands| && d.commands[k].TextCommand? ==> HasEntry(d, k))
    && Externalized(d, e, t)
  }

  /** The lines of the commands before k are back as in `d`; the others
      are still as Externalize left them. */
  predicate Restored(d: Doc, e: Doc, x: Doc, k: nat)
    requires k <= |d.commands| && |x.pool| == |d.pool| && |e.pool| == |d.pool|
  {
    forall id :: 0 <= id < |d.pool| ==> x.pool[id] == if OwnedBefore(d, k, id) then d.pool[id] else e.pool[id]
  }

  /** The invariant of the Internalize loop on an externalized script. */
  ghost predicate RoundInv(d: Doc, e: Doc, t: Tables, x: Doc, k: nat) {
    && Carried(d, e, t) && k <= |d.commands|
    && SameShape(d, x) && WellFormed(x)
    && Restored(d, e, x, k) && RecountedUpTo(d, x, k)
  }

  /** The dialogue half of turn k finds the key, the blanks and the
      translation that Externalize left, and writes back the original
      dialogue lines. */
  lemma RoundText(d: Doc, e: Doc, t: Tables, x: Doc, k: nat)
    requires RoundInv(d, e, t, x, k) && k < |d.commands| && d.commands[k].TextCommand?
    ensures Sane(x) && HasEntry(x, k)
    ensures InternalizeText(x, t.translations.value, k) == Ok(WriteText(x, k, DialogueLines(d, k)))
  {
    var tr := t.translations.value;
    assert Sane(x) && CommandRefsOk(d, k) && CommandRefsOk(x, k);
    var c := d.commands[k];
    var n := TextCount(d.commands, k) + 1;
    assert CommandExternalized(d, e, tr, t.speakers.value, t.names.value, k);
    NotOwnedBefore(d, k, c.sourceLine);
    var key := x.pool[c.sourceLine].text;
    assert key == LineKey(n);
    KeyParts(n);
    ParseInt32OfNatToString(n);
    forall i | 0 <= i < |c.continuationLines| ensures x.pool[c.continuationLines[i]].text == Blank {
      NotOwnedBefore(d, k, c.continuationLines[i]);
    }
    assert AllBlank(x, k);
    assert SectionRecounted(d, x, k, c.section);
    assert HasEntry(d, k);
    assert forall j :: 0 <= j < |DialogueLines(d, k)| ==> Plain(DialogueLines(d, k)[j]);
    TranslationOfJoin(DialogueLines(d, k));
    ChangeTextSameCount(x, k, DialogueLines(d, k));
  }

  /** Writing the original dialogue lines back restores the source and
      continuation lines of command k and touches no other line. */
  lemma WriteRestores(d: Doc, x: Doc, k: nat)
    requires WellFormed(d) && SameShape(d, x) && k < |d.commands| && d.commands[k].TextCommand?
    requires Sane(x) && HasEntry(x, k)
    ensures CommandRefsOk(d, k)
    ensures var c := d.commands[k];
      var x1 := WriteText(x, k, DialogueLines(d, k));
      && SameShape(d, x1) && x1.lines == x.lines
      && x1.pool[c.sourceLine] == d.pool[c.sourceLine]
      && (forall i :: 0 <= i < |c.continuationLines| ==> x1.pool[c.continuationLines[i]] == d.pool[c.continuationLines[i]])
      && (forall id :: 0 <= id < |d.pool| && id != c.sourceLine && id !in c.continuationLines ==> x1.pool[id] == x.pool[id])
  {
    var c := d.commands[k];
    var ids := [c.sourceLine] + c.continuationLines;
    var text := DialogueLines(d, k);
    RunDistinct(d, k);
    SetTextsEffect(x.pool, ids, text, 0);
    var x1 := WriteText(x, k, text);
    assert x1.pool == SetTexts(x.pool, ids, text, 0);
    forall j | 0 <= j < |ids| ensures x1.pool[ids[j]] == d.pool[ids[j]] {
      assert x1.pool[ids[j]].text == text[j] == d.pool[ids[j]].text;
    }
    assert x1.pool[ids[0]] == d.pool[c.sourceLine];
    forall i | 0 <= i < |c.continuationLines| ensures x1.pool[c.continuationLines[i]] == d.pool[c.continuationLines[i]] {
      assert ids[i + 1] == c.continuationLines[i];
    }
    forall id | 0 <= id < |d.pool| && id != c.sourceLine && id !in c.continuationLines ensures x1.pool[id] == x.pool[id] {
      forall j | 0 <= j < |ids| ensures ids[j] != id {
        if j > 0 {
          assert ids[j] == c.continuationLines[j - 1];
        }
      }
    }
  }

  /** A speaker line whose name was replaced by the key of name id m
      reads back as the original line through Names. */
  lemma NameKeyBack(t0: string, name: string, nm: map<int, string>, m: nat, text: string)
    requires Patterns.MatchName(t0) == Some(name)
    requires m <= Int32Max && m in nm && nm[m] == name
    requires text == NameKey(m) + t0[|name|..]
    ensures Patterns.MatchName(text) == Some(NameKey(m))
    ensures StartsWith(NameKey(m), "@N") && ParseInt32(NameKey(m)[2..]) == Some(m)
    ensures nm[m] + text[|NameKey(m)|..] == t0
  {
    KeyParts(m);
    KeyMatch(NameKey(m), t0, name);
    ParseInt32OfNatToString(m);
    var key := NameKey(m);
    assert text[|key|..] == t0[|name|..];
    assert name + t0[|name|..] == t0;
  }

  /** The name id Externalize gave the speaker of dialogue command k. */
  lemma NameId(d: Doc, e: Doc, t: Tables, k: nat) returns (m: nat)
    requires Carried(d, e, t) && k < |d.commands| && d.commands[k].TextCommand?
    requires CommandRefsOk(d, k) && d.commands[k].nameLine.Some?
    ensures var t0 := d.pool[d.commands[k].nameLine.value].text;
      var name := SpeakerName(t0);
      && Patterns.MatchName(t0) == Some(name)
      && m <= Int32Max && m in t.names.value && t.names.value[m] == name
      && e.pool[d.commands[k].nameLine.value].text == NameKey(m) + t0[|name|..]
  {
    var nl := d.commands[k].nameLine.value;
    var tr, sp, nm := t.translations.value, t.speakers.value, t.names.value;
    var t0 := d.pool[nl].text;
    var name := SpeakerName(t0);
    assert Externalizable(d, k);
    assert CommandExternalized(d, e, tr, sp, nm, k);
    m :| m in nm && nm[m] == name && e.pool[nl].text == NameKey(m) + t0[|name|..];
    assert 1 <= m <= TextCount(d.commands, |d.commands|);
  }

  /** The speaker half of turn k finds the name key that Externalize left
      on the speaker line and writes back the original speaker line. */
  lemma RoundName(d: Doc, e: Doc, t: Tables, x1: Doc, k: nat)
    requires Carried(d, e, t) && k < |d.commands| && d.commands[k].TextCommand?
    requires SameShape(d, x1)
    requires CommandRefsOk(d, k) && d.commands[k].nameLine.Some? ==>
      x1.pool[d.commands[k].nameLine.value] == e.pool[d.commands[k].nameLine.value]
    ensures Sane(x1) && CommandRefsOk(d, k)
    ensures var nl := d.commands[k].nameLine;
      InternalizeName(x1, t.names.value, k) ==
        Ok(if nl.Some? then SetText(x1, nl.value, d.pool[nl.value].text) else x1)
  {
    SameShapeSane(d, x1);
    assert CommandRefsOk(d, k);
    var c := d.commands[k];
    if c.nameLine.Some? {
      var nl := c.nameLine.value;
      var t0 := d.pool[nl].text;
      var m := NameId(d, e, t, k);
      NameKeyBack(t0, SpeakerName(t0), t.names.value, m, x1.pool[nl].text);
    }
  }

  /** Turn k keeps the records recounted: a skipped command changes no
      record, a dialogue command gets its line count in Field14. */
  lemma RecountStep(d: Doc, x: Doc, x': Doc, k: nat)
    requires WellFormed(d) && k < |d.commands| && RecountedUpTo(d, x, k)
    requires Sane(x) && x.commands == d.commands
    ensures !d.commands[k].TextCommand? ==> RecountedUpTo(d, x, k + 1)
    ensures d.commands[k].TextCommand? && HasEntry(x, k) ==>
      var c := d.commands[k];
      var e := x.sections[c.section].entries[c.commandIndex];
      x'.sections == WithEntry(x.sections, c.section, c.commandIndex, e.(field14 := LineCount(c, |c.continuationLines| + 1))) ==>
      RecountedUpTo(d, x', k + 1)
  {
    assert CommandOk(d, k) && CommandRefsOk(d, k);
    var c := d.commands[k];
    var k1 := k + 1;
    if !c.TextCommand? {
      forall s | 0 <= s < |d.sections| ensures SectionRecounted(d, x, k1, s) {
        assert SectionRecounted(d, x, k, s);
        assert SectionRefsOk(d, s);
      }
    } else if HasEntry(x, k) {
      assert SectionRecounted(d, x, k, c.section);
      var e := x.sections[c.section].entries[c.commandIndex];
      if x'.sections == WithEntry(x.sections, c.section, c.commandIndex, e.(field14 := LineCount(c, |c.continuationLines| + 1))) {
        forall s | 0 <= s < |d.sections| ensures SectionRecounted(d, x', k1, s) {
          assert SectionRecounted(d, x, k, s);
          assert SectionRefsOk(d, s) && SectionOk(d, s);
          forall i | 0 <= i < |d.sections[s].entries| ensures x'.sections[s].entries[i] == Recounted(d, k1, s, i) {
            var sc := d.sections[s].commands;
            if s == c.section && i == c.commandIndex {
              assert i < |sc| && sc[i] == k;
            }
            if i < |sc| && sc[i] == k {
              assert d.commands[sc[i]].section == s && d.commands[sc[i]].commandIndex == i;
            }
          }
        }
      }
    }
  }

  /** Turn k keeps the lines restored: the lines command k owns are back,
      the others are as before. */
  lemma RestoreStep(d: Doc, e: Doc, x: Doc, x': Doc, k: nat)
    requires WellFormed(d) && k < |d.commands| && d.commands[k].TextCommand?
    requires |x.pool| == |d.pool| && |e.pool| == |d.pool| && |x'.pool| == |d.pool|
    requires Restored(d, e, x, k)
    requires forall id :: 0 <= id < |d.pool| && Owns(d, k, id) ==> x'.pool[id] == d.pool[id]
    requires forall id :: 0 <= id < |d.pool| && !Owns(d, k, id) ==> x'.pool[id] == x.pool[id]
    ensures Restored(d, e, x', k + 1)
  {
    forall id | 0 <= id < |d.pool|
      ensures x'.pool[id] == if OwnedBefore(d, k + 1, id) then d.pool[id] else e.pool[id]
    {
      if Owns(d, k, id) {
        assert OwnedBefore(d, k + 1, id);
      } else {
        assert OwnedBefore(d, k + 1, id) == OwnedBefore(d, k, id);
      }
    }
  }

  /** A skipped command owns nothing that decides Restored. */
  lemma RestoreSkip(d: Doc, e: Doc, x: Doc, k: nat)
    requires k < |d.commands| && !d.commands[k].TextCommand?
    requires |x.pool| == |d.pool| && |e.pool| == |d.pool|
    requires Restored(d, e, x, k)
    ensures Restored(d, e, x, k + 1)
  {
    forall id | 0 <= id < |d.pool| ensures OwnedBefore(d, k + 1, id) == OwnedBefore(d, k, id) {
    }
  }

  /** The speaker line of a dialogue command is neither its source line
      nor one of its continuation lines. */
  lemma NameLineApart(d: Doc, k: nat)
    requires WellFormed(d) && k < |d.commands| && d.commands[k].TextCommand?
    requires CommandRefsOk(d, k) && d.commands[k].nameLine.Some?
    ensures var c := d.commands[k];
      c.nameLine.value != c.sourceLine && c.nameLine.value !in c.continuationLines
  {
    RunPositions(d, k);
  }

  /** The lines after turn k: those command k owns are as in `d`, the
      others as before the turn. */
  lemma TurnLines(d: Doc, x: Doc, x1: Doc, x2: Doc, k: nat)
    requires WellFormed(d) && k < |d.commands| && d.commands[k].TextCommand? && CommandRefsOk(d, k)
    requires SameShape(d, x) && SameShape(d, x1)
    requires var c := d.commands[k];
      && x1.pool[c.sourceLine] == d.pool[c.sourceLine]
      && (forall i :: 0 <= i < |c.continuationLines| ==> x1.pool[c.continuationLines[i]] == d.pool[c.continuationLines[i]])
      && (forall id :: 0 <= id < |d.pool| && id != c.sourceLine && id !in c.continuationLines ==> x1.pool[id] == x.pool[id])
      && x2 == if c.nameLine.Some? then SetText(x1, c.nameLine.value, d.pool[c.nameLine.value].text) else x1
    ensures |x2.pool| == |d.pool|
    ensures forall id :: 0 <= id < |d.pool| && Owns(d, k, id) ==> x2.pool[id] == d.pool[id]
    ensures forall id :: 0 <= id < |d.pool| && !Owns(d, k, id) ==> x2.pool[id] == x.pool[id]
  {
    var c := d.commands[k];
    if c.nameLine.Some? {
      NameLineApart(d, k);
    }
    forall id | 0 <= id < |d.pool| && Owns(d, k, id) ensures x2.pool[id] == d.pool[id] {
      if id in c.continuationLines {
        var i :| 0 <= i < |c.continuationLines| && c.continuationLines[i] == id;
      }
    }
  }

  /** One turn of the Internalize loop on an externalized script succeeds
      and keeps the invariant. */
  lemma RoundTurn(d: Doc, e: Doc, t: Tables, x: Doc, k: nat) returns (x2: Doc)
    requires RoundInv(d, e, t, x, k) && k < |d.commands| && d.commands[k].TextCommand?
    ensures InternalizeCommand(x, t.translations.value, t.names.value, k) == Ok(x2)
    ensures RoundInv(d, e, t, x2, k + 1)
  {
    RoundText(d, e, t, x, k);
    WriteRestores(d, x, k);
    var c := d.commands[k];
    var x1 := WriteText(x, k, DialogueLines(d, k));
    if c.nameLine.Some? {
      var nl := c.nameLine.value;
      NameLineApart(d, k);
      NotOwnedBefore(d, k, nl);
      assert x1.pool[nl] == e.pool[nl];
    }
    RoundName(d, e, t, x1, k);
    x2 := if c.nameLine.Some? then SetText(x1, c.nameLine.value, d.pool[c.nameLine.value].text) else x1;
    SameShapeTrans(d, x1, x2);
    SameShapeWellFormed(d, x2);
    TurnLines(d, x, x1, x2, k);
    RestoreStep(d, e, x, x2, k);
    assert x2.sections == x1.sections;
    RecountStep(d, x, x2, k);
  }

  /** A turn that skips a command keeps the invariant. */
  lemma RoundSkip(d: Doc, e: Doc, t: Tables, x: Doc, k: nat)
    requires RoundInv(d, e, t, x, k) && k < |d.commands| && !d.commands[k].TextCommand?
    ensures RoundInv(d, e, t, x, k + 1)
  {
    RestoreSkip(d, e, x, k);
    SameShapeSane(d, x);
    RecountStep(d, x, x, k);
  }

  /** The Internalize loop on an externalized script succeeds from any
      command on which the invariant holds, and keeps it to the end. */
  lemma {:induction false} RoundFrom(d: Doc, e: Doc, t: Tables, x: Doc, k: nat)
    requires RoundInv(d, e, t, x, k)
    ensures var r := InternalizeFrom(x, t.translations.value, t.names.value, k);
      r.Ok? && RoundInv(d, e, t, r.value, |d.commands|)
    decreases |d.commands| - k
  {
    if k < |d.commands| {
      var tr, nm := t.translations.value, t.names.value;
      if !d.commands[k].TextCommand? {
        RoundSkip(d, e, t, x, k);
        assert InternalizeFrom(x, tr, nm, k) == InternalizeFrom(x, tr, nm, k + 1);
        RoundFrom(d, e, t, x, k + 1);
      } else {
        var x2 := RoundTurn(d, e, t, x, k);
        assert InternalizeFrom(x, tr, nm, k) == InternalizeFrom(x2, tr, nm, k + 1);
        RoundFrom(d, e, t, x2, k + 1);
      }
    }
  }

  /** The invariant holds before the first turn. */
  lemma RoundStart(d: Doc, e: Doc, t: Tables)
    requires Carried(d, e, t) && WellFormed(e)
    ensures RoundInv(d, e, t, e, 0)
  {
    forall s | 0 <= s < |d.sections| ensures SectionRecounted(d, e, 0, s) {
      assert SectionRefsOk(d, s);
    }
  }

  /** After the last turn every line is back: only the records differ. */
  lemma RoundEnd(d: Doc, e: Doc, t: Tables, x: Doc)
    requires RoundInv(d, e, t, x, |d.commands|)
    ensures x == d.(sections := x.sections)
  {
    forall id | 0 <= id < |d.pool| ensures x.pool[id] == d.pool[id] {
    }
    assert x.pool == d.pool;
  }

  /** Recounted records, then stamped by UpdateLineNumbers, are remade. */
  lemma RemadeAfter(d: Doc, x: Doc, r: Doc)
    requires WellFormed(d) && x == d.(sections := x.sections) && Sane(x)
    requires RecountedUpTo(d, x, |d.commands|)
    requires r == x.(sections := r.sections) && StampedUpTo(x, r, |d.commands|)
    ensures RecordsRemade(d, r)
  {
    forall s | 0 <= s < |d.sections| ensures SectionRemade(d, r, s) {
      assert SectionRecounted(d, x, |d.commands|, s);
      assert SectionStamped(x, r, |d.commands|, s);
      assert SectionRefsOk(d, s);
    }
  }

  /** The round trip: on a well-formed script that Externalize accepts,
      whose dialogue lines hold no newline and no "\n" escape, whose dialogue
      commands all have records and whose command count fits the int32
      counters, Externalize succeeds and Internalize of its result
      succeeds, drops the tables, and gives back the original script with
      only the dialogue records remade. */
  lemma ExternalizeInternalize(d: Doc)
    requires WellFormed(d) && AllExternalizable(d) && |d.commands| <= Int32Max
    requires DialoguesPlain(d)
    requires forall k :: 0 <= k < |d.commands| && d.commands[k].TextCommand? ==> HasEntry(d, k)
    ensures Externalize(d, NoTables).Ok?
    ensures var (e, t) := Externalize(d, NoTables).value;
      && WellFormed(e)
      && Internalize(e, t).Ok?
      && Internalize(e, t).value.1 == NoTables
      && RecordsRemade(d, Internalize(e, t).value.0)
  {
    ExternalizeSpec(d);
    var (e, t) := Externalize(d, NoTables).value;
    assert Carried(d, e, t);
    RoundStart(d, e, t);
    RoundFrom(d, e, t, e, 0);
    var x := InternalizeFrom(e, t.translations.value, t.names.value, 0).value;
    RoundEnd(d, e, t, x);
    SameShapeSane(d, x);
    SameShapeWellFormed(d, x);
    UpdateLineNumbersSpec(x);
    assert forall k :: 0 <= k < |x.commands| && x.commands[k].TextCommand? ==> HasEntry(x, k) by {
      forall k | 0 <= k < |x.commands| && x.commands[k].TextCommand? ensures HasEntry(x, k) {
        assert SectionRecounted(d, x, |d.commands|, d.commands[k].section);
      }
    }
    var r := UpdateLineNumbers(x).value;
    RemadeAfter(d, x, r);
  }

  /** Every dialogue record already holds the line count and the anchor
      that the round trip writes. */
  predicate RecordsCurrent(d: Doc)
    requires Sane(d)
  {
    forall k :: 0 <= k < |d.commands| && d.commands[k].TextCommand? && HasEntry(d, k) ==>
      var c := d.commands[k];
      var e := d.sections[c.section].entries[c.commandIndex];
      e.field14 == LineCount(c, |c.continuationLines| + 1) && e.field10 == Anchor(d, k)
  }

  /** Remaking current records changes nothing. */
  lemma RemadeCurrent(d: Doc, d': Doc)
    requires WellFormed(d) && RecordsCurrent(d) && RecordsRemade(d, d')
    ensures d' == d
  {
    forall s | 0 <= s < |d.sections| ensures d'.sections[s] == d.sections[s] {
      assert SectionRemade(d, d', s);
      assert SectionRefsOk(d, s) && SectionOk(d, s);
      var sc := d.sections[s].commands;
      forall i | 0 <= i < |d.sections[s].entries| ensures d'.sections[s].entries[i] == d.sections[s].entries[i] {
        if i < |sc| && d.commands[sc[i]].TextCommand? {
          assert d.commands[sc[i]].section == s && d.commands[sc[i]].commandIndex == i;
          assert HasEntry(d, sc[i]);
        }
      }
      assert d'.sections[s].entries == d.sections[s].entries;
    }
    assert d'.sections == d.sections;
  }

  /** So on a script whose records are current, the round trip gives back
      exactly the script it started from. */
  lemma ExternalizeInternalizeIdentity(d: Doc)
    requires WellFormed(d) && AllExternalizable(d) && |d.commands| <= Int32Max
    requires DialoguesPlain(d)
    requires forall k :: 0 <= k < |d.commands| && d.commands[k].TextCommand? ==> HasEntry(d, k)
    requires RecordsCurrent(d)
    ensures Externalize(d, NoTables).Ok?
    ensures var (e, t) := Externalize(d, NoTables).value;
      && WellFormed(e)
      && Internalize(e, t) == Ok((d, NoTables))
  {
    ExternalizeInternalize(d);
    var (e, t) := Externalize(d, NoTables).value;
    RemadeCurrent(d, Internalize(e, t).value.0);
  }
}
