/** The `Script` class (TenkiConv/Program.cs:88-101 and 176-356): the
    document's lists and the three translation tables as fields, and the
    operations that update them in place, each proved to do what the
    function its `ensures` names in the other modules describes. */
module Scripts {
  import opened Wrappers
  import opened Strings
  import Patterns
  import opened Classifier
  import opened Records
  import opened Document
  import opened Relayout
  import opened TextChange
  import opened Tables
  import opened Externalizing
  import opened Internalizing

  class Script {
    /** Every line object ever created, by identity. */
    var pool: seq<ScriptLine>
    /** `Lines`, `Commands` and `Sections`. */
    var lines: seq<nat>
    var commands: seq<ScriptCommand>
    var sections: seq<ScriptSection>
    /** `Translations`, `Speakers` and `Names`; None is null. */
    var translations: Option<map<int, string>>
    var speakers: Option<map<int, string>>
    var names: Option<map<int, string>>

    /** The document the fields hold. */
    function Contents(): Doc
      reads this
    {
      Doc(pool, lines, commands, sections)
    }

    function Dictionaries(): Tables
      reads this
    {
      Tables(translations, speakers, names)
    }

    /** `new Script(lines, commands, sections)`: no tables yet. */
    constructor (d: Doc)
      ensures Contents() == d && Dictionaries() == NoTables
    {
      pool, lines, commands, sections := d.pool, d.lines, d.commands, d.sections;
      translations, speakers, names := Option.None, Option.None, Option.None;
    }

    // -------------------------------------------------------------------
    // Validate

    /** `Validate`: true exactly when none of its assertions fails and no
        index is out of range. */
    method Validate() returns (ok: bool)
      requires Sane(Contents())
      ensures ok <==> ValidateSpec(Contents())
    {
      var i := 0;
      while i < |lines|
        invariant 0 <= i <= |lines|
        invariant forall j :: 0 <= j < i ==> LineChecks(Contents(), j)
      {
        ok := CheckLine(i);
        if !ok {
          return;
        }
        i := i + 1;
      }
      // When the counts differ the program first prints the records and
      // asserts kinds; the count assertion after that loop fails anyway.
      var s := 0;
      while s < |sections|
        invariant 0 <= s <= |sections|
        invariant forall t :: 0 <= t < s ==> CountMatches(Contents(), t)
      {
        if |sections[s].commands| != |sections[s].entries| {
          assert !CountMatches(Contents(), s);
          return false;
        }
        s := s + 1;
      }
      var k := 0;
      while k < |commands|
        invariant 0 <= k <= |commands|
        invariant forall j :: 0 <= j < k ==> CommandChecks(Contents(), j)
      {
        assert CommandRefsOk(Contents(), k);
        var c := commands[k];
        var sc := sections[c.section].commands;
        if c.commandIndex >= |sc| || sc[c.commandIndex] != k || pool[c.sourceLine].command != Some(k) {
          assert !CommandChecks(Contents(), k);
          return false;
        }
        k := k + 1;
      }
      return true;
    }

    /** The checks of the first loop of Validate on the line at position i. */
    method CheckLine(i: nat) returns (ok: bool)
      requires Sane(Contents()) && i < |lines|
      ensures ok <==> LineChecks(Contents(), i)
    {
      var line := pool[lines[i]];
      if line.command.Some? && commands[line.command.value].sourceLine != lines[i] {
        return false;
      }
      if line.kind == Speaker {
        return i + 1 < |lines| && pool[lines[i + 1]].kind == Text;
      } else if line.kind == TextContinuation {
        var j := i - 1;
        while j >= 0 && pool[lines[j]].kind == TextContinuation
          invariant -1 <= j < i
          invariant PrevNonCont(Contents(), j) == PrevNonCont(Contents(), i - 1)
          decreases j
        {
          j := j - 1;
        }
        if j < 0 {
          return false;
        }
        var textLine := pool[lines[j]];
        if textLine.kind != Text || textLine.command.None? || !commands[textLine.command.value].TextCommand? {
          return false;
        }
        var conts := commands[textLine.command.value].continuationLines;
        return i - j - 1 < |conts| && conts[i - j - 1] == lines[i];
      }
      return true;
    }

    // -------------------------------------------------------------------
    // UpdateLineNumbers

    /** `UpdateLineNumbers`: Field10 of every dialogue record becomes the
        LineNumber of the speaker line, or of the source line without one.
        A command without a record stops it (an index out of range). */
    method UpdateLineNumbers() returns (r: Result<(), IntError>)
      requires Sane(Contents())
      modifies this
      ensures var x := Internalizing.UpdateLineNumbers(old(Contents()));
        && (r.Ok? <==> x.Ok?)
        && (r.Err? ==> x == Err(r.error))
        && (r.Ok? ==> Contents() == x.value)
      ensures Dictionaries() == old(Dictionaries())
    {
      ghost var d0 := Contents();
      var k := 0;
      while k < |commands|
        invariant 0 <= k <= |commands| == |d0.commands|
        invariant Sane(Contents()) && Contents() == d0.(sections := sections)
        invariant UpdateFrom(Contents(), k) == UpdateFrom(d0, 0)
        invariant Dictionaries() == old(Dictionaries())
      {
        assert CommandRefsOk(Contents(), k);
        var c := commands[k];
        if c.TextCommand? {
          if c.commandIndex >= |sections[c.section].entries| {
            return Err(NoRecord(k));
          }
          var e := sections[c.section].entries[c.commandIndex];
          var anchor := if c.nameLine.Some? then pool[c.nameLine.value].lineNumber else pool[c.sourceLine].lineNumber;
          var secs := WithEntry(sections, c.section, c.commandIndex, e.(field10 := anchor));
          RecordsOnly(Contents(), secs);
          sections := secs;
        }
        k := k + 1;
      }
      return Ok(());
    }
 
    // -------------------------------------------------------------------
    // ChangeText

    /** `Lines.IndexOf(line)`. */
    method IndexOfLine(id: nat) returns (p: int)
      ensures p == IndexOf(lines, id)
    {
      var i := 0;
      while i < |lines|
        invariant 0 <= i <= |lines|
        invariant IndexFrom(lines, id, i) == IndexOf(lines, id)
      {
        if lines[i] == id {
          return i;
        }
        i := i + 1;
      }
      return -1;
    }

    /** `for (i = from; i < Lines.Count; i++) Lines[i].LineNumber += delta`. */
    method ShiftLines(from: nat, delta: int)
      requires from <= |lines| && forall j :: 0 <= j < |lines| ==> lines[j] < |pool|
      modifies this
      ensures pool == ShiftFrom(old(pool), old(lines), from, delta)
      ensures lines == old(lines) && commands == old(commands) && sections == old(sections)
      ensures Dictionaries() == old(Dictionaries())
    {
      var i := from;
      while i < |lines|
        invariant from <= i <= |lines| && |pool| == |old(pool)|
        invariant lines == old(lines) && commands == old(commands) && sections == old(sections)
        invariant Dictionaries() == old(Dictionaries())
        invariant ShiftFrom(pool, lines, i, delta) == ShiftFrom(old(pool), lines, from, delta)
      {
        pool := pool[lines[i] := Moved(pool[lines[i]], delta)];
        i := i + 1;
      }
    }

    /** The `newLines` array of ChangeText: `a` continuation line objects
        reading "@--", numbered from `start`. */
    method AddFreshLines(start: int, a: nat)
      modifies this
      ensures pool == old(pool) + FreshLines(start, a)
      ensures lines == old(lines) && commands == old(commands) && sections == old(sections)
      ensures Dictionaries() == old(Dictionaries())
    {
      var i := 0;
      while i < a
        invariant 0 <= i <= a
        invariant pool == old(pool) + FreshLines(start, i)
        invariant lines == old(lines) && commands == old(commands) && sections == old(sections)
        invariant Dictionaries() == old(Dictionaries())
      {
        pool := pool + [ScriptLine(TextContinuation, "@--", start + i, Option.None)];
        i := i + 1;
        assert FreshLines(start, i) == FreshLines(start, i - 1) + [ScriptLine(TextContinuation, "@--", start + i - 1, Option.None)];
      }
    }

    /** `SourceLine.Text = text[0]` and `ContinuationLines[i-1].Text =
        text[i]`, with `ids` the source line and then the continuations. */
    method WriteLines(ids: seq<nat>, text: seq<string>)
      requires |ids| == |text| && forall j :: 0 <= j < |ids| ==> ids[j] < |pool|
      modifies this
      ensures pool == SetTexts(old(pool), ids, text, 0)
      ensures lines == old(lines) && commands == old(commands) && sections == old(sections)
      ensures Dictionaries() == old(Dictionaries())
    {
      var i := 0;
      while i < |ids|
        invariant 0 <= i <= |ids| && |pool| == |old(pool)|
        invariant lines == old(lines) && commands == old(commands) && sections == old(sections)
        invariant Dictionaries() == old(Dictionaries())
        invariant SetTexts(pool, ids, text, i) == SetTexts(old(pool), ids, text, 0)
      {
        pool := pool[ids[i] := pool[ids[i]].(text := text[i])];
        i := i + 1;
      }
    }

    /** The shrinking branch of ChangeText: the surplus continuations
        leave `Lines` and the command, and later lines move up. */
    method RemoveLines(k: nat, p: nat, n: nat)
      requires Sane(Contents()) && k < |commands| && commands[k].TextCommand? && n > 0
      requires p + |commands[k].continuationLines| < |lines| && |commands[k].continuationLines| + 1 > n
      modifies this
      ensures Contents() == WithLayout(old(Contents()), k, Relayout.Relayout(old(Contents()), k, p, n))
      ensures Dictionaries() == old(Dictionaries())
    {
      var c := commands[k];
      var linesToRemove := |c.continuationLines| + 1 - n;
      lines := lines[..p + n] + lines[p + n + linesToRemove..];
      commands := commands[k := c.(continuationLines := c.continuationLines[..n - 1])];
      ShiftLines(p + n, -linesToRemove);
    }

    /** The growing branch of ChangeText: new continuation lines are made,
        inserted after the run and added to the command, and later lines
        move down. */
    method InsertLines(k: nat, p: nat, n: nat)
      requires Sane(Contents()) && k < |commands| && commands[k].TextCommand? && n > 0
      requires p + |commands[k].continuationLines| < |lines| && |commands[k].continuationLines| + 1 < n
      modifies this
      ensures Contents() == WithLayout(old(Contents()), k, Relayout.Relayout(old(Contents()), k, p, n))
      ensures Dictionaries() == old(Dictionaries())
    {
      var c := commands[k];
      var oldLineCount := |c.continuationLines| + 1;
      var linesToAdd := n - oldLineCount;
      var first := |pool|;
      AddFreshLines(p + oldLineCount, linesToAdd);
      lines := lines[..p + oldLineCount] + Range(first, linesToAdd) + lines[p + oldLineCount..];
      commands := commands[k := c.(continuationLines := c.continuationLines + Range(first, linesToAdd))];
      ShiftLines(p + n, linesToAdd);
    }

    /** `ChangeText(command, text)`: the list step, then the texts and
        Field14. */
    method ChangeText(k: nat, text: seq<string>)
      requires WellFormed(Contents()) && k < |commands| && commands[k].TextCommand? && |text| > 0
      requires HasEntry(Contents(), k)
      modifies this
      ensures Contents() == TextChange.ChangeText(old(Contents()), k, text)
      ensures Dictionaries() == old(Dictionaries())
    {
      ghost var d := Contents();
      var c := commands[k];
      var lineIndex := IndexOfLine(c.sourceLine);
      SourceFound(d, k);
      // The Debug.Asserts that the continuations follow the source line
      // hold in a well-formed script.
      var oldLineCount := |c.continuationLines| + 1;
      var newLineCount := |text|;
      if oldLineCount > newLineCount {
        RemoveLines(k, lineIndex, newLineCount);
      } else if oldLineCount < newLineCount {
        InsertLines(k, lineIndex, newLineCount);
      } else {
        assert commands[k := c] == commands;
      }
      assert Contents() == Relaid(d, k, newLineCount);
      RelaidShape(d, k, newLineCount);
      var c2 := commands[k];
      assert CommandRefsOk(Contents(), k);
      WriteLines([c2.sourceLine] + c2.continuationLines, text);
      var e := sections[c2.section].entries[c2.commandIndex];
      sections := WithEntry(sections, c2.section, c2.commandIndex, e.(field14 := LineCount(c2, newLineCount)));
    }
 
    // -------------------------------------------------------------------
    // Externalize

    /** The dialogue half of a turn of Externalize for command k with
        dialogue id n: the key on the source line, the blanks on the
        continuation lines, and the joined text, which goes into
        Translations[n]. */
    method ExternalizeDialogue(k: nat, n: nat, ghost st: ExtState) returns (r: Result<string, ExtError>)
      requires st.d == Contents() && st.lineCount == n
      requires Sane(Contents()) && k < |commands| && commands[k].TextCommand?
      modifies this
      ensures var x := Externalizing.ExternalizeText(st, k);
        && (r.Err? <==> x.Err?) && (r.Err? ==> x.error == r.error)
        && (r.Ok? ==> Contents() == x.value.d && x.value.translations == st.translations[n := r.value])
      ensures Dictionaries() == old(Dictionaries())
    {
      assert CommandRefsOk(Contents(), k);
      var c := commands[k];
      var text := pool[c.sourceLine].text;
      pool := pool[c.sourceLine := pool[c.sourceLine].(text := LineKey(n))];
      if StartsWith(text, "@") {
        return Err(SourceIsKey(k));
      }
      ghost var pool1, text1 := pool, text;
      var i := 0;
      while i < |c.continuationLines|
        invariant 0 <= i <= |c.continuationLines| && |pool| == |pool1|
        invariant lines == old(lines) && commands == old(commands) && sections == old(sections)
        invariant Dictionaries() == old(Dictionaries())
        invariant BlankFrom(pool, c.continuationLines, i, text) == BlankFrom(pool1, c.continuationLines, 0, text1)
      {
        var id := c.continuationLines[i];
        text := text + "\n" + pool[id].text;
        pool := pool[id := pool[id].(text := Blank)];
        i := i + 1;
      }
      return Ok(text);
    }

    /** The speaker half of a turn of Externalize for command k with
        dialogue id n: the name found by NamePattern gets its id from the
        name dictionary `nameIds`, or the next one, and its key replaces it
        on the speaker line. */
    method ExternalizeSpeaker(k: nat, n: nat, sp: map<int, string>, nm: map<int, string>,
                              nameIds: map<string, nat>, nameCount: nat, ghost st: ExtState)
      returns (r: Outcome<ExtError>, sp': map<int, string>, nm': map<int, string>,
               nameIds': map<string, nat>, nameCount': nat)
      requires st.d == Contents() && st.speakers == sp && st.names == nm && st.nameIds == nameIds
      requires st.nameCount == nameCount
      requires Sane(Contents()) && k < |commands| && commands[k].TextCommand?
      modifies this
      ensures var x := Externalizing.ExternalizeName(st, k, n);
        && (r.Fail? <==> x.Err?) && (r.Fail? ==> x.error == r.error)
        && (r.Pass? ==> x.value == ExtState(Contents(), st.translations, sp', nm', nameIds', st.lineCount, nameCount'))
      ensures Dictionaries() == old(Dictionaries())
    {
      sp', nm', nameIds', nameCount' := sp, nm, nameIds, nameCount;
      assert CommandRefsOk(Contents(), k);
      var c := commands[k];
      if c.nameLine.Some? {
        var nl := c.nameLine.value;
        var lineText := pool[nl].text;
        var found := Patterns.MatchName(lineText);
        if found.None? {
          return Fail(NoSpeakerName(k)), sp', nm', nameIds', nameCount';
        }
        var name := found.value;
        if StartsWith(name, "@") {
          return Fail(NameIsKey(k)), sp', nm', nameIds', nameCount';
        }
        var key := NameKey(nameCount);
        if name in nameIds {
          key := NameKey(nameIds[name]);
        } else {
          nameIds' := nameIds[name := nameCount];
          nm' := nm[nameCount := name];
          nameCount' := nameCount + 1;
        }
        sp' := sp[n := name];
        pool := pool[nl := pool[nl].(text := key + lineText[|name|..])];
      }
      r := Pass;
    }

    /** One turn of Externalize, for the dialogue command k: the tables,
        the name dictionary and the name counter after the turn. */
    method ExternalizeTurn(k: nat, tr: map<int, string>, sp: map<int, string>, nm: map<int, string>,
                           nameIds: map<string, nat>, lineCount: nat, nameCount: nat, ghost st: ExtState)
      returns (r: Outcome<ExtError>, tr': map<int, string>, sp': map<int, string>, nm': map<int, string>,
               nameIds': map<string, nat>, nameCount': nat)
      requires st == ExtState(Contents(), tr, sp, nm, nameIds, lineCount, nameCount)
      requires Sane(Contents()) && k < |commands| && commands[k].TextCommand?
      modifies this
      ensures var x := ExternalizeCommand(st, k);
        && (r.Fail? <==> x.Err?) && (r.Fail? ==> x.error == r.error)
        && (r.Pass? ==> x.value == ExtState(Contents(), tr', sp', nm', nameIds', lineCount + 1, nameCount'))
      ensures Dictionaries() == old(Dictionaries())
    {
      sp', nm', nameIds', nameCount' := sp, nm, nameIds, nameCount;
      var joined := ExternalizeDialogue(k, lineCount, st);
      if joined.Err? {
        return Fail(joined.error), tr, sp', nm', nameIds', nameCount';
      }
      tr' := tr[lineCount := joined.value];
      SameShapeSane(st.d, Contents());
      ghost var st1 := ExtState(Contents(), tr', sp, nm, nameIds, lineCount, nameCount);
      r, sp', nm', nameIds', nameCount' := ExternalizeSpeaker(k, lineCount, sp, nm, nameIds, nameCount, st1);
    }

    /** `Externalize`: nothing happens when a table exists; otherwise every
        dialogue command in turn is externalized, and the tables are set. */
    method Externalize() returns (r: Result<(), ExtError>)
      requires Sane(Contents())
      modifies this
      ensures var x := Externalizing.Externalize(old(Contents()), old(Dictionaries()));
        && (r.Ok? <==> x.Ok?) && (r.Err? ==> x == Err(r.error))
        && (r.Ok? ==> Contents() == x.value.0 && Dictionaries() == x.value.1)
    {
      if translations.Some? || speakers.Some? || names.Some? {
        return Ok(());
      }
      var tr: map<int, string>, sp: map<int, string>, nm: map<int, string> := map[], map[], map[];
      var lineCount: nat, nameCount: nat := 1, 1;
      var nameIds: map<string, nat> := map[];
      ghost var st0 := ExtState(Contents(), tr, sp, nm, nameIds, lineCount, nameCount);
      var k := 0;
      while k < |commands|
        invariant 0 <= k <= |commands| && Sane(Contents())
        invariant ExternalizeFrom(ExtState(Contents(), tr, sp, nm, nameIds, lineCount, nameCount), k) == ExternalizeFrom(st0, 0)
      {
        if commands[k].TextCommand? {
          ghost var st := ExtState(Contents(), tr, sp, nm, nameIds, lineCount, nameCount);
          var turn;
          turn, tr, sp, nm, nameIds, nameCount := ExternalizeTurn(k, tr, sp, nm, nameIds, lineCount, nameCount, st);
          if turn.Fail? {
            return Err(turn.error);
          }
          lineCount := lineCount + 1;
          SameShapeSane(st.d, Contents());
        }
        k := k + 1;
      }
      translations, speakers, names := Some(tr), Some(sp), Some(nm);
      return Ok(());
    }

    // -------------------------------------------------------------------
    // Internalize

    /** The dialogue half of a turn of Internalize for command k: the key
        and the blanks are checked, and ChangeText writes the translation. */
    method InternalizeDialogue(k: nat, tr: map<int, string>) returns (r: Outcome<IntError>)
      requires WellFormed(Contents()) && k < |commands| && commands[k].TextCommand?
      modifies this
      ensures var x := Internalizing.InternalizeText(old(Contents()), tr, k);
        && (r.Fail? <==> x.Err?) && (r.Fail? ==> x.error == r.error)
        && (r.Pass? ==> Contents() == x.value)
      ensures Dictionaries() == old(Dictionaries())
    {
      assert CommandRefsOk(Contents(), k);
      var c := commands[k];
      var key := pool[c.sourceLine].text;
      if !StartsWith(key, "@L") {
        return Fail(NotLineKey(k));
      }
      var i := 0;
      while i < |c.continuationLines|
        invariant 0 <= i <= |c.continuationLines|
        invariant forall j :: 0 <= j < i ==> pool[c.continuationLines[j]].text == Blank
      {
        if pool[c.continuationLines[i]].text != Blank {
          return Fail(NotBlank(k));
        }
        i := i + 1;
      }
      var n := ParseInt32(key[2..]);
      if n.None? {
        return Fail(BadNumber(k));
      }
      if n.value !in tr {
        return Fail(NoTranslation(k));
      }
      var translation := TranslationLines(tr[n.value]);
      if c.commandIndex >= |sections[c.section].entries| {
        return Fail(NoRecord(k));
      }
      ChangeText(k, translation);
      return Pass;
    }

    /** The speaker half of a turn of Internalize for command k: the name
        key found by NamePattern is replaced by the name it stands for. */
    method InternalizeSpeaker(k: nat, nm: map<int, string>) returns (r: Outcome<IntError>)
      requires Sane(Contents()) && k < |commands| && commands[k].TextCommand?
      modifies this
      ensures var x := Internalizing.InternalizeName(old(Contents()), nm, k);
        && (r.Fail? <==> x.Err?) && (r.Fail? ==> x.error == r.error)
        && (r.Pass? ==> Contents() == x.value)
      ensures Dictionaries() == old(Dictionaries())
    {
      assert CommandRefsOk(Contents(), k);
      var c := commands[k];
      if c.nameLine.Some? {
        var nl := c.nameLine.value;
        var lineText := pool[nl].text;
        var found := Patterns.MatchName(lineText);
        if found.None? {
          return Fail(NoSpeakerKey(k));
        }
        var nameKey := found.value;
        if !StartsWith(nameKey, "@N") {
          return Fail(NotNameKey(k));
        }
        var m := ParseInt32(nameKey[2..]);
        if m.None? {
          return Fail(BadNumber(k));
        }
        if m.value !in nm {
          return Fail(NoName(k));
        }
        pool := pool[nl := pool[nl].(text := nm[m.value] + lineText[|nameKey|..])];
      }
      return Pass;
    }

    /** `Internalize`: nothing happens unless all three tables exist;
        otherwise every dialogue command in turn gets its text and speaker
        back, then UpdateLineNumbers runs and the tables are dropped. */
    method Internalize() returns (r: Result<(), IntError>)
      requires WellFormed(Contents())
      modifies this
      ensures var x := Internalizing.Internalize(old(Contents()), old(Dictionaries()));
        && (r.Ok? <==> x.Ok?) && (r.Err? ==> x == Err(r.error))
        && (r.Ok? ==> Contents() == x.value.0 && Dictionaries() == x.value.1)
    {
      if translations.None? || speakers.None? || names.None? {
        return Ok(());
      }
      var tr, nm := translations.value, names.value;
      ghost var d0 := Contents();
      var k := 0;
      while k < |commands|
        invariant 0 <= k <= |commands| && WellFormed(Contents())
        invariant InternalizeFrom(Contents(), tr, nm, k) == InternalizeFrom(d0, tr, nm, 0)
        invariant Dictionaries() == old(Dictionaries())
      {
        if commands[k].TextCommand? {
          ghost var d := Contents();
          var done := InternalizeDialogue(k, tr);
          if done.Fail? {
            return Err(done.error);
          }
          ghost var d1 := Contents();
          done := InternalizeSpeaker(k, nm);
          if done.Fail? {
            return Err(done.error);
          }
          SameShapeWellFormed(d1, Contents());
          assert InternalizeCommand(d, tr, nm, k) == Ok(Contents());
        }
        k := k + 1;
      }
      var updated := UpdateLineNumbers();
      if updated.Err? {
        return Err(updated.error);
      }
      translations, speakers, names := Option.None, Option.None, Option.None;
      return Ok(());
    }
  }
}
