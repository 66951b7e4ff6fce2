/** `Script.Internalize` and `Script.UpdateLineNumbers`
    (TenkiConv/Program.cs:223-252 and 306-316): every dialogue command, in
    command order, reads its id from the "@L<n>" key on its source line,
    takes Translations[n] with "\n" escapes turned into newlines, split at
    the newlines, as its new lines (`ChangeText`), and gets back the name
    behind the "@N<id>" key of its speaker line. Then every dialogue record
    gets the position of the command's first line in Field10, and the tables
    are dropped. */
module Internalizing {
  import opened Wrappers
  import opened Strings
  import Patterns
  import opened Classifier
  import opened Records
  import opened Document
  import opened TextChange
  import opened Tables
  import opened Externalizing

  /** The failures of Internalize: a Debug.Assert, a FormatException or
      OverflowException of int.Parse, a KeyNotFoundException of a table,
      or a record index out of range, with the command at fault. */
  datatype IntError =
    | NotLineKey(command: nat)      // the source line does not start with "@L"
    | NotBlank(command: nat)        // a continuation line is not "@--"
    | BadNumber(command: nat)       // int.Parse rejects the number of a key
    | NoTranslation(command: nat)   // Translations has no such id
    | NoRecord(command: nat)        // the section has no record at CommandIndex
    | NoSpeakerKey(command: nat)    // NamePattern does not match the speaker line
    | NotNameKey(command: nat)      // the speaker name does not start with "@N"
    | NoName(command: nat)          // Names has no such id

  /** Every continuation line of command k reads "@--". */
  predicate AllBlank(d: Doc, k: nat)
    requires Sane(d) && k < |d.commands| && d.commands[k].TextCommand?
  {
    assert CommandRefsOk(d, k);
    var conts := d.commands[k].continuationLines;
    forall i :: 0 <= i < |conts| ==> d.pool[conts[i]].text == Blank
  }

  /** The new lines of a translation: `Replace("\\n", "\n").Split('\n')`. */
  function TranslationLines(s: string): (r: seq<string>)
    ensures |r| > 0
  {
    Split(ReplaceEscapes(s))
  }

  /** ChangeText keeps the document well formed and command k a dialogue
      command with the same speaker line. */
  lemma ChangeTextKeeps(d: Doc, k: nat, text: seq<string>)
    requires WellFormed(d) && k < |d.commands| && d.commands[k].TextCommand? && |text| > 0
    requires HasEntry(d, k)
    ensures var d' := ChangeText(d, k, text);
      && WellFormed(d') && |d'.commands| == |d.commands|
      && d'.commands[k].TextCommand? && d'.commands[k].nameLine == d.commands[k].nameLine
  {
    ChangeTextWellFormed(d, k, text);
    ChangeTextCommands(d, k, text);
  }

  /** The dialogue half of one turn of the Internalize loop. */
  function InternalizeText(d: Doc, tr: map<int, string>, k: nat): (r: Result<Doc, IntError>)
    requires WellFormed(d) && k < |d.commands| && d.commands[k].TextCommand?
    ensures r.Ok? ==>
      && WellFormed(r.value) && |r.value.commands| == |d.commands|
      && r.value.commands[k].TextCommand? && r.value.commands[k].nameLine == d.commands[k].nameLine
  {
    assert CommandRefsOk(d, k);
    var key := d.pool[d.commands[k].sourceLine].text;
    if !StartsWith(key, "@L") then Err(NotLineKey(k))
    else if !AllBlank(d, k) then Err(NotBlank(k))
    else
      match ParseInt32(key[2..])
      case None => Err(BadNumber(k))
      case Some(n) =>
        if n !in tr then Err(NoTranslation(k))
        else if !HasEntry(d, k) then Err(NoRecord(k))
        else
          ChangeTextKeeps(d, k, TranslationLines(tr[n]));
          Ok(ChangeText(d, k, TranslationLines(tr[n])))
  }

  /** The speaker half of one turn: the "@N<id>" key becomes Names[id]. */
  function InternalizeName(d: Doc, nm: map<int, string>, k: nat): (r: Result<Doc, IntError>)
    requires Sane(d) && k < |d.commands| && d.commands[k].TextCommand?
    ensures r.Ok? ==> SameShape(d, r.value) && r.value.sections == d.sections
  {
    assert CommandRefsOk(d, k);
    match d.commands[k].nameLine
    case None => Ok(d)
    case Some(nl) =>
      var t := d.pool[nl].text;
      match Patterns.MatchName(t)
      case None => Err(NoSpeakerKey(k))
      case Some(nameKey) =>
        if !StartsWith(nameKey, "@N") then Err(NotNameKey(k))
        else
          match ParseInt32(nameKey[2..])
          case None => Err(BadNumber(k))
          case Some(m) =>
            if m !in nm then Err(NoName(k))
            else Ok(SetText(d, nl, nm[m] + t[|nameKey|..]))
  }

  /** One turn of the Internalize loop, for the dialogue command k. */
  function InternalizeCommand(d: Doc, tr: map<int, string>, nm: map<int, string>, k: nat): (r: Result<Doc, IntError>)
    requires WellFormed(d) && k < |d.commands| && d.commands[k].TextCommand?
    ensures r.Ok? ==> WellFormed(r.value) && |r.value.commands| == |d.commands|
  {
    match InternalizeText(d, tr, k)
    case Err(e) => Err(e)
    case Ok(d1) =>
      var r := InternalizeName(d1, nm, k);
      if r.Ok? then SameShapeWellFormed(d1, r.value); r else r
  }

  /** The Internalize loop from command k on. */
  function InternalizeFrom(d: Doc, tr: map<int, string>, nm: map<int, string>, k: nat): (r: Result<Doc, IntError>)
    requires WellFormed(d) && k <= |d.commands|
    ensures r.Ok? ==> WellFormed(r.value) && |r.value.commands| == |d.commands|
    decreases |d.commands| - k
  {
    if k == |d.commands| then Ok(d)
    else if !d.commands[k].TextCommand? then InternalizeFrom(d, tr, nm, k + 1)
    else
      match InternalizeCommand(d, tr, nm, k)
      case Err(e) => Err(e)
      case Ok(d1) => InternalizeFrom(d1, tr, nm, k + 1)
  }

  // ---------------------------------------------------------------------
  // UpdateLineNumbers

  /** The position of a dialogue command's first line: its speaker line
      when it has one, else its source line. */
  function Anchor(d: Doc, k: nat): int
    requires Sane(d) && k < |d.commands| && d.commands[k].TextCommand?
  {
    assert CommandRefsOk(d, k);
    var c := d.commands[k];
    if c.nameLine.Some? then d.pool[c.nameLine.value].lineNumber else d.pool[c.sourceLine].lineNumber
  }

  /** Replacing the records keeps the references of a document valid. */
  lemma RecordsOnly(d: Doc, secs: seq<ScriptSection>)
    requires Sane(d) && |secs| == |d.sections|
    requires forall s :: 0 <= s < |secs| ==> secs[s].commands == d.sections[s].commands
    ensures SameShape(d, d.(sections := secs)) && Sane(d.(sections := secs))
  {
    SameShapeSane(d, d.(sections := secs));
  }

  /** The UpdateLineNumbers loop from command k on. */
  function UpdateFrom(d: Doc, k: nat): (r: Result<Doc, IntError>)
    requires Sane(d) && k <= |d.commands|
    ensures r.Ok? ==> SameShape(d, r.value) && r.value == d.(sections := r.value.sections)
    decreases |d.commands| - k
  {
    if k == |d.commands| then Ok(d)
    else if !d.commands[k].TextCommand? then UpdateFrom(d, k + 1)
    else if !HasEntry(d, k) then Err(NoRecord(k))
    else
      var c := d.commands[k];
      var e := d.sections[c.section].entries[c.commandIndex];
      var secs := WithEntry(d.sections, c.section, c.commandIndex, e.(field10 := Anchor(d, k)));
      RecordsOnly(d, secs);
      var r := UpdateFrom(d.(sections := secs), k + 1);
      if r.Ok? then SameShapeTrans(d, d.(sections := secs), r.value); r else r
  }

  function UpdateLineNumbers(d: Doc): (r: Result<Doc, IntError>)
    requires Sane(d)
    ensures r.Ok? ==> SameShape(d, r.value) && r.value == d.(sections := r.value.sections)
  {
    UpdateFrom(d, 0)
  }

  /** Internalize: nothing happens unless all three tables exist;
      otherwise the loop, UpdateLineNumbers, and the tables are dropped. */
  function Internalize(d: Doc, t: Tables): (r: Result<(Doc, Tables), IntError>)
    requires WellFormed(d)
    ensures t.translations.None? || t.speakers.None? || t.names.None? ==> r == Ok((d, t))
    ensures r.Ok? ==> WellFormed(r.value.0)
    ensures t.translations.Some? && t.speakers.Some? && t.names.Some? && r.Ok? ==> r.value.1 == NoTables
  {
    if t.translations.None? || t.speakers.None? || t.names.None? then Ok((d, t))
    else
      match InternalizeFrom(d, t.translations.value, t.names.value, 0)
      case Err(e) => Err(e)
      case Ok(d1) =>
        match UpdateLineNumbers(d1)
        case Err(e) => Err(e)
        case Ok(d2) =>
          SameShapeWellFormed(d1, d2);
          Ok((d2, NoTables))
  }

  /** A second Internalize, as WriteToTxt makes after the converter's own
      call, changes nothing: the first one dropped the tables. */
  lemma InternalizeTwice(d: Doc, t: Tables)
    requires WellFormed(d)
    ensures var r := Internalize(d, t);
      r.Ok? ==> WellFormed(r.value.0) && Internalize(r.value.0, r.value.1) == r
  {
  }

  // ---------------------------------------------------------------------
  // What UpdateLineNumbers does

  /** Record i of section s once the commands before k are updated: the
      record of a dialogue command has its Anchor in Field10. */
  function Stamped(d: Doc, k: nat, s: nat, i: nat): SptEntry
    requires Sane(d) && s < |d.sections| && i < |d.sections[s].entries|
  {
    assert SectionRefsOk(d, s);
    var sc := d.sections[s].commands;
    var e := d.sections[s].entries[i];
    if i < |sc| && sc[i] < k && d.commands[sc[i]].TextCommand? then e.(field10 := Anchor(d, sc[i])) else e
  }

  predicate SectionStamped(d: Doc, x: Doc, k: nat, s: nat)
    requires Sane(d) && s < |d.sections| && s < |x.sections|
  {
    && x.sections[s].path == d.sections[s].path && x.sections[s].commands == d.sections[s].commands
    && |x.sections[s].entries| == |d.sections[s].entries|
    && forall i :: 0 <= i < |d.sections[s].entries| ==> x.sections[s].entries[i] == Stamped(d, k, s, i)
  }

  /** The records of `x` are those of `d` with the dialogue commands before
      k stamped. */
  predicate StampedUpTo(d: Doc, x: Doc, k: nat)
    requires Sane(d)
  {
    && |x.sections| == |d.sections|
    && forall s :: 0 <= s < |d.sections| ==> SectionStamped(d, x, k, s)
  }

  lemma StampStep(d: Doc, x: Doc, k: nat)
    requires WellFormed(d) && k < |d.commands| && x == d.(sections := x.sections) && Sane(x)
    requires StampedUpTo(d, x, k)
    ensures !d.commands[k].TextCommand? ==> StampedUpTo(d, x, k + 1)
    ensures d.commands[k].TextCommand? && HasEntry(x, k) ==>
      var c := d.commands[k];
      var e := x.sections[c.section].entries[c.commandIndex];
      StampedUpTo(d, x.(sections := WithEntry(x.sections, c.section, c.commandIndex, e.(field10 := Anchor(x, k)))), k + 1)
  {
    assert CommandOk(d, k);
    var c := d.commands[k];
    if !c.TextCommand? {
      var k1 := k + 1;
      forall s | 0 <= s < |d.sections| ensures SectionStamped(d, x, k1, s) {
        assert SectionStamped(d, x, k, s);
        assert SectionRefsOk(d, s);
      }
    } else if HasEntry(x, k) {
      var e := x.sections[c.section].entries[c.commandIndex];
      var x' := x.(sections := WithEntry(x.sections, c.section, c.commandIndex, e.(field10 := Anchor(x, k))));
      var k1 := k + 1;
      forall s | 0 <= s < |d.sections| ensures SectionStamped(d, x', k1, s) {
        assert SectionStamped(d, x, k, s);
        assert SectionRefsOk(d, s) && SectionOk(d, s);
        forall i | 0 <= i < |d.sections[s].entries| ensures x'.sections[s].entries[i] == Stamped(d, k + 1, s, i) {
          var sc := d.sections[s].commands;
          if s == c.section && i == c.commandIndex {
            assert i < |sc| && sc[i] == k;
          }
          if i < |sc| && sc[i] == k {
            assert d.commands[sc[i]].section == s && d.commands[sc[i]].commandIndex == i;
          }
        }
      }
    }
  }

  /** UpdateLineNumbers from command k on fails exactly when a remaining
      dialogue command has no record, and otherwise stamps them all. */
  lemma {:induction false} UpdateFromStamps(d: Doc, x: Doc, k: nat)
    requires WellFormed(d) && k <= |d.commands| && x == d.(sections := x.sections) && Sane(x)
    requires StampedUpTo(d, x, k)
    ensures var r := UpdateFrom(x, k);
      && (r.Ok? <==> forall j :: k <= j < |d.commands| && d.commands[j].TextCommand? ==> HasEntry(d, j))
      && (r.Ok? ==> r.value == d.(sections := r.value.sections) && StampedUpTo(d, r.value, |d.commands|))
    decreases |d.commands| - k
  {
    if k < |d.commands| {
      StampStep(d, x, k);
      var c := d.commands[k];
      assert HasEntry(x, k) <==> HasEntry(d, k) by {
        assert SectionStamped(d, x, k, c.section);
      }
      if !c.TextCommand? {
        UpdateFromStamps(d, x, k + 1);
      } else if HasEntry(x, k) {
        var e := x.sections[c.section].entries[c.commandIndex];
        var secs := WithEntry(x.sections, c.section, c.commandIndex, e.(field10 := Anchor(x, k)));
        RecordsOnly(x, secs);
        UpdateFromStamps(d, x.(sections := secs), k + 1);
      }
    }
  }

  /** UpdateLineNumbers fails exactly when a dialogue command has no record;
      otherwise it changes nothing but Field10 of the dialogue records, which
      becomes the position of the command's speaker line, or of its source
      line when it has none. */
  lemma UpdateLineNumbersSpec(d: Doc)
    requires WellFormed(d)
    ensures var r := UpdateLineNumbers(d);
      && (r.Ok? <==> forall k :: 0 <= k < |d.commands| && d.commands[k].TextCommand? ==> HasEntry(d, k))
      && (r.Ok? ==> r.value == d.(sections := r.value.sections) && StampedUpTo(d, r.value, |d.commands|))
  {
    forall s | 0 <= s < |d.sections| ensures SectionStamped(d, d, 0, s) {
    }
    UpdateFromStamps(d, d, 0);
  }

  /** The anchor is the line above the source line or the source line. */
  lemma AnchorPosition(d: Doc, k: nat)
    requires WellFormed(d) && k < |d.commands| && d.commands[k].TextCommand?
    ensures var c := d.commands[k];
      var p := Position(d, c.sourceLine);
      && 0 <= p < |d.lines|
      && (c.nameLine.Some? ==> p > 0 && Anchor(d, k) == p - 1 && Kind(d, p - 1) == Speaker)
      && (c.nameLine.None? ==> Anchor(d, k) == p)
  {
    RunPositions(d, k);
    assert CommandOk(d, k) && LayoutOk(d, k);
  }
}
