/** `Script.Externalize` (TenkiConv/Program.cs:176-221): every dialogue
    command, in command order, gets the next id n. Its source line becomes
    "@L<n>" and its continuation lines "@--", and the dialogue joined with
    '\n' goes into Translations[n]. A speaker name gets an id of its own the
    first time it appears. Its line starts with "@N<id>" instead of the
    name, and Speakers[n] records the name. */
module Externalizing {
  import opened Wrappers
  import opened Strings
  import Patterns
  import opened Document
  import opened Tables

  /** The Debug.Assert failures of Externalize, with the command at fault. */
  datatype ExtError =
    | SourceIsKey(command: nat)     // the dialogue already starts with '@'
    | NoSpeakerName(command: nat)   // NamePattern does not match the speaker line
    | NameIsKey(command: nat)       // the speaker name starts with '@'

  /** The state of the Externalize loop: the document, the three tables,
      the name dictionary `names` and the counters lineCount and nameCount. */
  datatype ExtState = ExtState(
    d: Doc,
    translations: map<int, string>,
    speakers: map<int, string>,
    names: map<int, string>,
    nameIds: map<string, nat>,
    lineCount: nat,
    nameCount: nat)

  /** "@L" + n, the key that replaces dialogue number n. */
  function LineKey(n: nat): string {
    "@L" + NatToString(n)
  }

  /** "@N" + n, the key that replaces speaker name number n. */
  function NameKey(n: nat): string {
    "@N" + NatToString(n)
  }

  /** The placeholder text of an externalized continuation line. */
  const Blank: string := "@--"

  /** The texts of the line objects `ids`. */
  function TextsOf(pool: seq<ScriptLine>, ids: seq<nat>): (r: seq<string>)
    requires forall j :: 0 <= j < |ids| ==> ids[j] < |pool|
    ensures |r| == |ids| && forall j :: 0 <= j < |ids| ==> r[j] == pool[ids[j]].text
  {
    seq(|ids|, j requires 0 <= j < |ids| => pool[ids[j]].text)
  }

  /** The continuation loop from continuation i on: `text += '\n' +
      line.Text; line.Text = "@--"`. Gives the new pool and the text. */
  function BlankFrom(pool: seq<ScriptLine>, conts: seq<nat>, i: nat, text: string): (r: (seq<ScriptLine>, string))
    requires i <= |conts| && forall j :: 0 <= j < |conts| ==> conts[j] < |pool|
    ensures |r.0| == |pool|
    ensures forall id :: 0 <= id < |pool| ==> r.0[id] == pool[id].(text := r.0[id].text)
    decreases |conts| - i
  {
    if i == |conts| then (pool, text)
    else
      var id := conts[i];
      BlankFrom(pool[id := pool[id].(text := Blank)], conts, i + 1, text + "\n" + pool[id].text)
  }

  /** The pool with the texts of some lines changed has the document's shape. */
  lemma TextsOnly(d: Doc, pool: seq<ScriptLine>)
    requires |pool| == |d.pool| && forall id :: 0 <= id < |d.pool| ==> pool[id] == d.pool[id].(text := pool[id].text)
    ensures SameShape(d, d.(pool := pool))
  {
  }

  /** The dictionary step for a speaker name: the id it already has, or the
      next id, recorded in both directions. */
  function NameStep(st: ExtState, name: string): (r: (nat, ExtState))
    ensures r.1.d == st.d && r.1.translations == st.translations && r.1.speakers == st.speakers
    ensures r.1.lineCount == st.lineCount
    ensures name in st.nameIds ==> r == (st.nameIds[name], st)
    ensures name !in st.nameIds ==>
      && r.0 == st.nameCount
      && r.1 == st.(names := st.names[st.nameCount := name], nameIds := st.nameIds[name := st.nameCount],
                    nameCount := st.nameCount + 1)
  {
    if name in st.nameIds then (st.nameIds[name], st)
    else (st.nameCount, st.(names := st.names[st.nameCount := name], nameIds := st.nameIds[name := st.nameCount],
                            nameCount := st.nameCount + 1))
  }

  /** The dialogue half of one turn of the Externalize loop, for the
      dialogue command k: the key on the source line, the blanks on the
      continuation lines and the joined text in Translations. */
  function ExternalizeText(st: ExtState, k: nat): (r: Result<ExtState, ExtError>)
    requires Sane(st.d) && k < |st.d.commands| && st.d.commands[k].TextCommand?
    ensures r.Ok? ==> SameShape(st.d, r.value.d) && r.value.d.sections == st.d.sections
  {
    var d := st.d;
    var c := d.commands[k];
    assert CommandRefsOk(d, k);
    var text := d.pool[c.sourceLine].text;
    if StartsWith(text, "@") then Err(SourceIsKey(k))
    else
      var d1 := SetText(d, c.sourceLine, LineKey(st.lineCount));
      var (pool2, joined) := BlankFrom(d1.pool, c.continuationLines, 0, text);
      TextsOnly(d1, pool2);
      Ok(st.(d := d1.(pool := pool2), translations := st.translations[st.lineCount := joined]))
  }

  /** The speaker half of one turn, for dialogue number `n`: the name
      becomes its key and is recorded in Speakers, and in Names if new. */
  function ExternalizeName(st: ExtState, k: nat, n: nat): (r: Result<ExtState, ExtError>)
    requires Sane(st.d) && k < |st.d.commands| && st.d.commands[k].TextCommand?
    ensures r.Ok? ==> SameShape(st.d, r.value.d) && r.value.d.sections == st.d.sections
  {
    assert CommandRefsOk(st.d, k);
    match st.d.commands[k].nameLine
    case None => Ok(st)
    case Some(nl) =>
      var lineText := st.d.pool[nl].text;
      match Patterns.MatchName(lineText)
      case None => Err(NoSpeakerName(k))
      case Some(name) =>
        if StartsWith(name, "@") then Err(NameIsKey(k))
        else
          var (nameId, st1) := NameStep(st, name);
          Ok(st1.(d := SetText(st.d, nl, NameKey(nameId) + lineText[|name|..]), speakers := st1.speakers[n := name]))
  }

  /** One turn of the Externalize loop, for the dialogue command k. */
  function ExternalizeCommand(st: ExtState, k: nat): (r: Result<ExtState, ExtError>)
    requires Sane(st.d) && k < |st.d.commands| && st.d.commands[k].TextCommand?
    ensures r.Ok? ==> SameShape(st.d, r.value.d) && r.value.d.sections == st.d.sections
  {
    match ExternalizeText(st, k)
    case Err(e) => Err(e)
    case Ok(st1) =>
      SameShapeSane(st.d, st1.d);
      match ExternalizeName(st1, k, st.lineCount)
      case Err(e) => Err(e)
      case Ok(st2) =>
        SameShapeTrans(st.d, st1.d, st2.d);
        Ok(st2.(lineCount := st.lineCount + 1))
  }

  /** The Externalize loop from command k on; commands that are not
      dialogue are skipped (`Commands.OfType<TextCommand>()`). */
  function ExternalizeFrom(st: ExtState, k: nat): (r: Result<ExtState, ExtError>)
    requires Sane(st.d) && k <= |st.d.commands|
    ensures r.Ok? ==> SameShape(st.d, r.value.d) && r.value.d.sections == st.d.sections
    decreases |st.d.commands| - k
  {
    if k == |st.d.commands| then Ok(st)
    else if !st.d.commands[k].TextCommand? then ExternalizeFrom(st, k + 1)
    else
      match ExternalizeCommand(st, k)
      case Err(e) => Err(e)
      case Ok(st1) =>
        SameShapeSane(st.d, st1.d);
        var r := ExternalizeFrom(st1, k + 1);
        if r.Ok? then SameShapeTrans(st.d, st1.d, r.value.d); r else r
  }

  /** Externalize: nothing happens when any table exists already; otherwise
      the loop runs from fresh tables with both counters at 1. */
  function Externalize(d: Doc, t: Tables): (r: Result<(Doc, Tables), ExtError>)
    requires Sane(d)
    ensures r.Ok? ==> SameShape(d, r.value.0) && r.value.0.sections == d.sections
    ensures t.translations.Some? || t.speakers.Some? || t.names.Some? ==> r == Ok((d, t))
    ensures r.Ok? ==> r.value.1.translations.Some? || r.value.1.speakers.Some? || r.value.1.names.Some?
  {
    if t.translations.Some? || t.speakers.Some? || t.names.Some? then Ok((d, t))
    else
      match ExternalizeFrom(ExtState(d, map[], map[], map[], map[], 1, 1), 0)
      case Err(e) => Err(e)
      case Ok(st) => Ok((st.d, Tables(Some(st.translations), Some(st.speakers), Some(st.names))))
  }

  /** A second Externalize, as WriteToCsv makes after the converter's own
      call, changes nothing: the first one left the tables set. */
  lemma ExternalizeTwice(d: Doc, t: Tables)
    requires Sane(d)
    ensures var r := Externalize(d, t);
      r.Ok? ==> Sane(r.value.0) && Externalize(r.value.0, r.value.1) == r
  {
    var r := Externalize(d, t);
    if r.Ok? {
      SameShapeSane(d, r.value.0);
    }
  }

  // ---------------------------------------------------------------------
  // What one turn does

  /** The dialogue of command k: the text of its source line and then the
      texts of its continuation lines. */
  function DialogueLines(d: Doc, k: nat): (r: seq<string>)
    requires Sane(d) && k < |d.commands| && d.commands[k].TextCommand?
    ensures |r| == |d.commands[k].continuationLines| + 1
  {
    assert CommandRefsOk(d, k);
    var c := d.commands[k];
    [d.pool[c.sourceLine].text] + TextsOf(d.pool, c.continuationLines)
  }

  lemma JoinMerge(a: string, b: string, ts: seq<string>)
    ensures Join([a + "\n" + b] + ts) == Join([a, b] + ts)
  {
    if |ts| > 0 {
      assert ([a + "\n" + b] + ts)[1..] == ts;
      assert ([a, b] + ts)[1..] == [b] + ts;
      assert ([b] + ts)[1..] == ts;
    }
  }

  lemma TextsOfFirst(pool: seq<ScriptLine>, ids: seq<nat>, i: nat)
    requires i < |ids| && forall j :: 0 <= j < |ids| ==> ids[j] < |pool|
    ensures TextsOf(pool, ids[i..]) == [pool[ids[i]].text] + TextsOf(pool, ids[i + 1..])
  {
    var a, b := TextsOf(pool, ids[i..]), [pool[ids[i]].text] + TextsOf(pool, ids[i + 1..]);
    forall j | 0 <= j < |a| ensures a[j] == b[j] {
      if j > 0 {
        assert ids[i..][j] == ids[i + 1..][j - 1];
      }
    }
  }

  /** The continuation loop over lines at consecutive positions blanks
      exactly those lines and appends their texts, '\n' before each. */
  lemma {:induction false} BlankFromEffect(pool: seq<ScriptLine>, conts: seq<nat>, i: nat, text: string, base: int)
    requires i <= |conts| && forall j :: 0 <= j < |conts| ==> conts[j] < |pool|
    requires forall j :: i <= j < |conts| ==> pool[conts[j]].lineNumber == base + j
    ensures var r := BlankFrom(pool, conts, i, text);
      && (forall id :: 0 <= id < |pool| && id !in conts[i..] ==> r.0[id] == pool[id])
      && (forall j :: i <= j < |conts| ==> r.0[conts[j]].text == Blank)
      && r.1 == Join([text] + TextsOf(pool, conts[i..]))
    decreases |conts| - i
  {
    if i < |conts| {
      var id := conts[i];
      var pool' := pool[id := pool[id].(text := Blank)];
      assert forall j :: i + 1 <= j < |conts| ==> conts[j] != id by {
        forall j | i + 1 <= j < |conts| ensures conts[j] != id {
          assert pool[conts[j]].lineNumber == base + j;
        }
      }
      BlankFromEffect(pool', conts, i + 1, text + "\n" + pool[id].text, base);
      var r := BlankFrom(pool, conts, i, text);
      assert conts[i..] == [id] + conts[i + 1..];
      forall x | 0 <= x < |pool| && x !in conts[i..] ensures r.0[x] == pool[x] {
        assert x != id && x !in conts[i + 1..];
      }
      var rest := TextsOf(pool, conts[i + 1..]);
      assert TextsOf(pool', conts[i + 1..]) == rest;
      TextsOfFirst(pool, conts, i);
      JoinMerge(text, pool[id].text, rest);
      assert [text] + ([pool[id].text] + rest) == [text, pool[id].text] + rest;
    } else {
      assert TextsOf(pool, conts[i..]) == [];
      assert [text] + [] == [text];
    }
  }

  /** The dialogue half of a turn on a well-formed document fails only on a
      source line that starts with '@'. Otherwise the source line gets the
      key, each continuation line the blank, Translations[lineCount] the
      joined dialogue, and nothing else changes. */
  lemma ExternalizeTextEffect(st: ExtState, k: nat)
    requires WellFormed(st.d) && k < |st.d.commands| && st.d.commands[k].TextCommand?
    ensures CommandRefsOk(st.d, k)
    ensures var c := st.d.commands[k];
      var r := ExternalizeText(st, k);
      && (r.Ok? <==> !StartsWith(st.d.pool[c.sourceLine].text, "@"))
      && (r.Ok? ==>
            && r.value == st.(d := r.value.d, translations := st.translations[st.lineCount := Join(DialogueLines(st.d, k))])
            && |r.value.d.pool| == |st.d.pool|
            && r.value.d.pool[c.sourceLine].text == LineKey(st.lineCount)
            && (forall i :: 0 <= i < |c.continuationLines| ==> r.value.d.pool[c.continuationLines[i]].text == Blank)
            && (forall id :: 0 <= id < |st.d.pool| && id != c.sourceLine && id !in c.continuationLines ==>
                  r.value.d.pool[id] == st.d.pool[id]))
  {
    RunPositions(st.d, k);
    var d := st.d;
    var c := d.commands[k];
    var conts := c.continuationLines;
    var p := Position(d, c.sourceLine);
    if !StartsWith(d.pool[c.sourceLine].text, "@") {
      var d1 := SetText(d, c.sourceLine, LineKey(st.lineCount));
      assert c.sourceLine !in conts;
      assert forall j :: 0 <= j < |conts| ==> d1.pool[conts[j]].lineNumber == p + 1 + j;
      BlankFromEffect(d1.pool, conts, 0, d.pool[c.sourceLine].text, p + 1);
      assert conts[0..] == conts;
      assert TextsOf(d1.pool, conts) == TextsOf(d.pool, conts);
    }
  }

  /** The speaker half of a turn: nothing without a speaker line; otherwise
      it fails exactly when the name is missing or starts with '@', and
      else does the dictionary step and rewrites the speaker line. */
  lemma ExternalizeNameEffect(st: ExtState, k: nat, n: nat)
    requires Sane(st.d) && k < |st.d.commands| && st.d.commands[k].TextCommand?
    ensures CommandRefsOk(st.d, k)
    ensures var c := st.d.commands[k];
      var r := ExternalizeName(st, k, n);
      && (c.nameLine.None? ==> r == Ok(st))
      && (c.nameLine.Some? ==>
            var nl := c.nameLine.value;
            var t := st.d.pool[nl].text;
            var name := SpeakerName(t);
            var (m, st1) := NameStep(st, name);
            && (r.Ok? <==> NameAllowed(t))
            && (r.Ok? ==> r.value == st1.(d := SetText(st.d, nl, NameKey(m) + t[|name|..]), speakers := st.speakers[n := name])))
  {
    assert CommandRefsOk(st.d, k);
  }

  // ---------------------------------------------------------------------
  // The loop invariant

  /** The speaker name that NamePattern finds in `t`, or "" without a match. */
  function SpeakerName(t: string): (r: string)
    ensures StartsWith(t, r)
    ensures Patterns.MatchName(t).Some? ==> r == Patterns.MatchName(t).value
  {
    match Patterns.MatchName(t)
    case Some(name) => name
    case None => ""
  }

  /** The Debug.Asserts on a speaker line: the pattern matches and the name
      does not start with '@'. */
  predicate NameAllowed(t: string) {
    Patterns.MatchName(t).Some? && !StartsWith(Patterns.MatchName(t).value, "@")
  }

  /** The Debug.Asserts of Externalize hold for dialogue command k. */
  predicate Externalizable(d: Doc, k: nat)
    requires Sane(d) && k < |d.commands| && d.commands[k].TextCommand?
  {
    assert CommandRefsOk(d, k);
    var c := d.commands[k];
    && !StartsWith(d.pool[c.sourceLine].text, "@")
    && (c.nameLine.Some? ==> NameAllowed(d.pool[c.nameLine.value].text))
  }

  predicate AllExternalizable(d: Doc)
    requires Sane(d)
  {
    forall k :: 0 <= k < |d.commands| && d.commands[k].TextCommand? ==> Externalizable(d, k)
  }

  /** Dialogue command j has a speaker line that names `name`. */
  predicate Speaks(d: Doc, j: nat, name: string)
    requires Sane(d)
  {
    && j < |d.commands| && d.commands[j].TextCommand? && d.commands[j].nameLine.Some?
    && (assert CommandRefsOk(d, j); SpeakerName(d.pool[d.commands[j].nameLine.value].text) == name)
  }

  /** The first dialogue command from j on whose speaker line names
      `name`, or the number of commands when there is none. */
  function FirstSpeaker(d: Doc, name: string, j: nat): (r: nat)
    requires Sane(d) && j <= |d.commands|
    ensures j <= r <= |d.commands|
    ensures r < |d.commands| ==> Speaks(d, r, name)
    ensures forall i :: j <= i < r ==> !Speaks(d, i, name)
    decreases |d.commands| - j
  {
    if j == |d.commands| then j
    else if Speaks(d, j, name) then j
    else FirstSpeaker(d, name, j + 1)
  }

  /** `names` and Names are inverse maps over the ids 1 .. nameCount-1, and
      there are no more names than dialogue commands. */
  ghost predicate Dictionary(st: ExtState) {
    && 1 <= st.nameCount <= st.lineCount
    && (forall m :: m in st.names <==> 1 <= m < st.nameCount)
    && (forall nm :: nm in st.nameIds ==> st.nameIds[nm] in st.names && st.names[st.nameIds[nm]] == nm)
    && (forall m :: m in st.names ==> st.names[m] in st.nameIds && st.nameIds[st.names[m]] == m)
  }

  /** After the first k commands: lineCount is the next dialogue id and the
      ids so far key Translations, and Speakers for the named ones. */
  ghost predicate Counted(d0: Doc, st: ExtState, k: nat)
    requires k <= |d0.commands|
  {
    && st.lineCount == TextCount(d0.commands, k) + 1
    && (forall n :: n in st.translations <==> 1 <= n < st.lineCount)
    && (forall n :: n in st.speakers ==> 1 <= n < st.lineCount)
  }

  /** Dialogue command j of the original `d0` is externalized in `st`. */
  predicate Done(d0: Doc, st: ExtState, j: nat)
    requires Sane(d0) && j < |d0.commands| && d0.commands[j].TextCommand? && SameShape(d0, st.d)
  {
    assert CommandRefsOk(d0, j);
    var c := d0.commands[j];
    var n := TextCount(d0.commands, j) + 1;
    && st.d.pool[c.sourceLine].text == LineKey(n)
    && (forall i :: 0 <= i < |c.continuationLines| ==> st.d.pool[c.continuationLines[i]].text == Blank)
    && n in st.translations && st.translations[n] == Join(DialogueLines(d0, j))
    && (c.nameLine.None? ==> n !in st.speakers)
    && (c.nameLine.Some? ==>
          var t := d0.pool[c.nameLine.value].text;
          var name := SpeakerName(t);
          && n in st.speakers && st.speakers[n] == name
          && name in st.nameIds
          && st.d.pool[c.nameLine.value].text == NameKey(st.nameIds[name]) + t[|name|..])
  }

  predicate DoneBefore(d0: Doc, st: ExtState, k: nat)
    requires Sane(d0) && k <= |d0.commands| && SameShape(d0, st.d)
  {
    forall j :: 0 <= j < k && d0.commands[j].TextCommand? ==> Done(d0, st, j)
  }

  /** Line object `id` belongs to one of the first k dialogue commands. */
  predicate OwnedBefore(d0: Doc, k: nat, id: nat)
    requires k <= |d0.commands|
  {
    exists j :: 0 <= j < k && d0.commands[j].TextCommand? && Owns(d0, j, id)
  }

  /** Lines no dialogue command before k owns are as in the original. */
  predicate Untouched(d0: Doc, st: ExtState, k: nat)
    requires k <= |d0.commands| && |st.d.pool| == |d0.pool|
  {
    forall id :: 0 <= id < |d0.pool| && !OwnedBefore(d0, k, id) ==> st.d.pool[id] == d0.pool[id]
  }

  /** The invariant of the Externalize loop before command k. */
  ghost predicate Inv(d0: Doc, st: ExtState, k: nat) {
    && WellFormed(d0) && k <= |d0.commands|
    && SameShape(d0, st.d) && st.d.sections == d0.sections && Sane(st.d)
    && Dictionary(st) && Counted(d0, st, k) && DoneBefore(d0, st, k) && Untouched(d0, st, k)
    && Ordered(d0, st, k)
  }

  /** Every name in `nm` is the name on some speaker line, and the ids
      follow the order in which the names first appear. */
  ghost predicate NamesInOrder(d: Doc, nm: map<int, string>)
    requires Sane(d)
  {
    && (forall m :: m in nm ==> FirstSpeaker(d, nm[m], 0) < |d.commands|)
    && (forall m :: m in nm && m > 1 && m - 1 in nm ==> FirstSpeaker(d, nm[m - 1], 0) < FirstSpeaker(d, nm[m], 0))
  }

  /** The names so far have their first speaker before command k, in
      the order of their ids. */
  ghost predicate Ordered(d0: Doc, st: ExtState, k: nat)
    requires Sane(d0)
  {
    && (forall m :: m in st.names ==> FirstSpeaker(d0, st.names[m], 0) < k)
    && NamesInOrder(d0, st.names)
  }

  /** What the turn for dialogue command k did, stated on the original. */
  predicate Stepped(d0: Doc, st: ExtState, st': ExtState, k: nat)
    requires Sane(d0) && k < |d0.commands| && d0.commands[k].TextCommand? && SameShape(d0, st.d)
  {
    assert CommandRefsOk(d0, k);
    var c := d0.commands[k];
    var n := st.lineCount;
    && SameShape(d0, st'.d) && st'.d.sections == d0.sections
    && st'.lineCount == n + 1
    && st'.translations == st.translations[n := Join(DialogueLines(d0, k))]
    && (forall id :: 0 <= id < |d0.pool| && !Owns(d0, k, id) ==> st'.d.pool[id] == st.d.pool[id])
    && st'.d.pool[c.sourceLine].text == LineKey(n)
    && (forall i :: 0 <= i < |c.continuationLines| ==> st'.d.pool[c.continuationLines[i]].text == Blank)
    && (c.nameLine.None? ==>
          st'.speakers == st.speakers && st'.names == st.names && st'.nameIds == st.nameIds && st'.nameCount == st.nameCount)
    && (c.nameLine.Some? ==>
          var t := d0.pool[c.nameLine.value].text;
          var name := SpeakerName(t);
          var (m, s1) := NameStep(st, name);
          && st'.speakers == st.speakers[n := name]
          && st'.names == s1.names && st'.nameIds == s1.nameIds && st'.nameCount == s1.nameCount
          && st'.d.pool[c.nameLine.value].text == NameKey(m) + t[|name|..])
  }

  /** No earlier dialogue command owns a line of command k. */
  lemma NotOwnedBefore(d0: Doc, k: nat, id: nat)
    requires WellFormed(d0) && k < |d0.commands| && d0.commands[k].TextCommand? && Owns(d0, k, id)
    ensures !OwnedBefore(d0, k, id)
  {
    if OwnedBefore(d0, k, id) {
      var j :| 0 <= j < k && d0.commands[j].TextCommand? && Owns(d0, j, id);
      OwnersUnique(d0, j, k, id);
    }
  }

  /** What the dialogue half of turn k did, stated on the original. */
  predicate TextStepped(d0: Doc, st: ExtState, st1: ExtState, k: nat)
    requires Sane(d0) && k < |d0.commands| && d0.commands[k].TextCommand? && SameShape(d0, st.d)
  {
    assert CommandRefsOk(d0, k);
    var c := d0.commands[k];
    && SameShape(d0, st1.d) && st1.d.sections == d0.sections && Sane(st1.d)
    && st1 == st.(d := st1.d, translations := st.translations[st.lineCount := Join(DialogueLines(d0, k))])
    && (forall id :: 0 <= id < |d0.pool| && id != c.sourceLine && id !in c.continuationLines ==>
          st1.d.pool[id] == st.d.pool[id])
    && st1.d.pool[c.sourceLine].text == LineKey(st.lineCount)
    && (forall i :: 0 <= i < |c.continuationLines| ==> st1.d.pool[c.continuationLines[i]].text == Blank)
    && (c.nameLine.Some? ==> st1.d.pool[c.nameLine.value] == d0.pool[c.nameLine.value])
  }

  lemma StepText(d0: Doc, st: ExtState, k: nat)
    requires Inv(d0, st, k) && k < |d0.commands| && d0.commands[k].TextCommand?
    ensures CommandRefsOk(d0, k)
    ensures var r := ExternalizeText(st, k);
      && (r.Ok? <==> !StartsWith(d0.pool[d0.commands[k].sourceLine].text, "@"))
      && (r.Ok? ==> TextStepped(d0, st, r.value, k))
  {
    SameShapeWellFormed(d0, st.d);
    RunPositions(d0, k);
    var c := d0.commands[k];
    var conts := c.continuationLines;
    NotOwnedBefore(d0, k, c.sourceLine);
    forall i | 0 <= i < |conts| ensures st.d.pool[conts[i]] == d0.pool[conts[i]] {
      NotOwnedBefore(d0, k, conts[i]);
    }
    assert DialogueLines(st.d, k) == DialogueLines(d0, k);
    ExternalizeTextEffect(st, k);
    var r := ExternalizeText(st, k);
    if r.Ok? {
      SameShapeSane(st.d, r.value.d);
      if c.nameLine.Some? {
        var nl := c.nameLine.value;
        NotOwnedBefore(d0, k, nl);
        assert nl != c.sourceLine && nl !in conts;
      }
    }
  }

  lemma StepName(d0: Doc, st: ExtState, st1: ExtState, k: nat)
    requires WellFormed(d0) && k < |d0.commands| && d0.commands[k].TextCommand? && SameShape(d0, st.d)
    requires TextStepped(d0, st, st1, k)
    ensures CommandRefsOk(d0, k)
    ensures var c := d0.commands[k];
      var r := ExternalizeName(st1, k, st.lineCount);
      && (r.Ok? <==> (c.nameLine.Some? ==> NameAllowed(d0.pool[c.nameLine.value].text)))
      && (r.Ok? ==> Stepped(d0, st, r.value.(lineCount := st.lineCount + 1), k))
  {
    assert CommandRefsOk(d0, k);
    ExternalizeNameEffect(st1, k, st.lineCount);
    var r := ExternalizeName(st1, k, st.lineCount);
    if r.Ok? && d0.commands[k].nameLine.Some? {
      StepNamed(d0, st, st1, k);
    }
  }

  lemma StepNamed(d0: Doc, st: ExtState, st1: ExtState, k: nat)
    requires WellFormed(d0) && k < |d0.commands| && d0.commands[k].TextCommand? && SameShape(d0, st.d)
    requires TextStepped(d0, st, st1, k)
    requires d0.commands[k].nameLine.Some? && ExternalizeName(st1, k, st.lineCount).Ok?
    ensures Stepped(d0, st, ExternalizeName(st1, k, st.lineCount).value.(lineCount := st.lineCount + 1), k)
  {
    assert CommandRefsOk(d0, k);
    ExternalizeNameEffect(st1, k, st.lineCount);
    var nl := d0.commands[k].nameLine.value;
    var t := d0.pool[nl].text;
    var name := SpeakerName(t);
    var (m, s1) := NameStep(st1, name);
    var st2 := s1.(d := SetText(st1.d, nl, NameKey(m) + t[|name|..]), speakers := st1.speakers[st.lineCount := name],
                   lineCount := st.lineCount + 1);
    assert ExternalizeName(st1, k, st.lineCount).value.(lineCount := st.lineCount + 1) == st2;
    assert nl != d0.commands[k].sourceLine && nl !in d0.commands[k].continuationLines by {
      RunPositions(d0, k);
    }
    NamedStepped(d0, st, st1, k, name, m, s1, st2);
  }

  lemma NamedStepped(d0: Doc, st: ExtState, st1: ExtState, k: nat, name: string, m: nat, s1: ExtState, st2: ExtState)
    requires Sane(d0) && k < |d0.commands| && d0.commands[k].TextCommand? && SameShape(d0, st.d)
    requires TextStepped(d0, st, st1, k)
    requires d0.commands[k].nameLine.Some? && d0.commands[k].nameLine.value < |d0.pool|
    requires d0.commands[k].nameLine.value != d0.commands[k].sourceLine
    requires d0.commands[k].nameLine.value !in d0.commands[k].continuationLines
    requires name == SpeakerName(d0.pool[d0.commands[k].nameLine.value].text)
    requires (m, s1) == NameStep(st1, name)
    requires st2 == s1.(d := SetText(st1.d, d0.commands[k].nameLine.value,
                                      NameKey(m) + d0.pool[d0.commands[k].nameLine.value].text[|name|..]),
                        speakers := st1.speakers[st.lineCount := name], lineCount := st.lineCount + 1)
    ensures Stepped(d0, st, st2, k)
  {
    var c := d0.commands[k];
    var nl := c.nameLine.value;
    forall id | 0 <= id < |d0.pool| && !Owns(d0, k, id) ensures st2.d.pool[id] == st.d.pool[id] {
      assert id != nl && id != c.sourceLine && id !in c.continuationLines;
    }
    SameShapeTrans(d0, st1.d, st2.d);
    NameStepAgree(st, st1, name);
  }

  /** NameStep looks at the name tables only. */
  lemma NameStepAgree(st: ExtState, st1: ExtState, name: string)
    requires st1.names == st.names && st1.nameIds == st.nameIds && st1.nameCount == st.nameCount
    ensures NameStep(st1, name).0 == NameStep(st, name).0
    ensures NameStep(st1, name).1.names == NameStep(st, name).1.names
    ensures NameStep(st1, name).1.nameIds == NameStep(st, name).1.nameIds
    ensures NameStep(st1, name).1.nameCount == NameStep(st, name).1.nameCount
  {
  }

  /** A turn succeeds exactly when the Debug.Asserts hold for command k of
      the original, and then does what `Stepped` says. */
  lemma StepEffect(d0: Doc, st: ExtState, k: nat)
    requires Inv(d0, st, k) && k < |d0.commands| && d0.commands[k].TextCommand?
    ensures var r := ExternalizeCommand(st, k);
      && (r.Ok? <==> Externalizable(d0, k))
      && (r.Ok? ==> Stepped(d0, st, r.value, k))
  {
    StepText(d0, st, k);
    var r1 := ExternalizeText(st, k);
    if r1.Ok? {
      StepName(d0, st, r1.value, k);
    }
  }

  // ---------------------------------------------------------------------
  // The invariant is kept

  lemma KeepDictionary(d0: Doc, st: ExtState, st': ExtState, k: nat)
    requires Sane(d0) && k < |d0.commands| && d0.commands[k].TextCommand? && SameShape(d0, st.d)
    requires Dictionary(st) && Stepped(d0, st, st', k)
    ensures Dictionary(st')
  {
    assert CommandRefsOk(d0, k);
    var c := d0.commands[k];
    if c.nameLine.Some? {
      NameStepKeeps(st, SpeakerName(d0.pool[c.nameLine.value].text));
    }
  }

  /** The dictionary step keeps the two maps inverse and dense. */
  lemma NameStepKeeps(st: ExtState, name: string)
    requires Dictionary(st)
    ensures Dictionary(NameStep(st, name).1.(lineCount := st.lineCount + 1))
  {
    if name !in st.nameIds {
      assert st.nameCount !in st.names;
      assert forall m :: m in st.names ==> st.names[m] != name;
    }
  }

  lemma KeepCounted(d0: Doc, st: ExtState, st': ExtState, k: nat)
    requires Sane(d0) && k < |d0.commands| && d0.commands[k].TextCommand? && SameShape(d0, st.d)
    requires Counted(d0, st, k) && Stepped(d0, st, st', k)
    ensures Counted(d0, st', k + 1)
  {
    assert CommandRefsOk(d0, k);
  }

  lemma KeepUntouched(d0: Doc, st: ExtState, st': ExtState, k: nat)
    requires Sane(d0) && k < |d0.commands| && d0.commands[k].TextCommand? && SameShape(d0, st.d)
    requires Untouched(d0, st, k) && Stepped(d0, st, st', k)
    ensures Untouched(d0, st', k + 1)
  {
    forall id | 0 <= id < |d0.pool| && !OwnedBefore(d0, k + 1, id) ensures st'.d.pool[id] == d0.pool[id] {
      assert !Owns(d0, k, id);
      assert !OwnedBefore(d0, k, id);
    }
  }

  /** The turn for command k externalizes it ... */
  lemma DoneNow(d0: Doc, st: ExtState, st': ExtState, k: nat)
    requires Sane(d0) && k < |d0.commands| && d0.commands[k].TextCommand? && SameShape(d0, st.d)
    requires Counted(d0, st, k) && Stepped(d0, st, st', k)
    ensures SameShape(d0, st'.d) && Done(d0, st', k)
  {
    assert CommandRefsOk(d0, k);
  }

  /** ... and leaves the commands before it externalized. */
  lemma DoneKept(d0: Doc, st: ExtState, st': ExtState, k: nat, j: nat)
    requires WellFormed(d0) && k < |d0.commands| && d0.commands[k].TextCommand? && SameShape(d0, st.d)
    requires j < k && d0.commands[j].TextCommand?
    requires Counted(d0, st, k) && Stepped(d0, st, st', k) && Done(d0, st, j)
    ensures SameShape(d0, st'.d) && Done(d0, st', j)
  {
    assert CommandRefsOk(d0, j) && CommandRefsOk(d0, k);
    var c := d0.commands[j];
    forall id | Owns(d0, j, id) ensures !Owns(d0, k, id) {
      if Owns(d0, k, id) {
        OwnersUnique(d0, j, k, id);
      }
    }
    assert !Owns(d0, k, c.sourceLine);
    forall i | 0 <= i < |c.continuationLines| ensures st'.d.pool[c.continuationLines[i]] == st.d.pool[c.continuationLines[i]] {
      assert Owns(d0, j, c.continuationLines[i]);
    }
    if c.nameLine.Some? {
      assert Owns(d0, j, c.nameLine.value);
    }
  }

  lemma StepKeeps(d0: Doc, st: ExtState, st': ExtState, k: nat)
    requires Inv(d0, st, k) && k < |d0.commands| && d0.commands[k].TextCommand?
    requires Stepped(d0, st, st', k)
    ensures Inv(d0, st', k + 1)
  {
    SameShapeSane(d0, st'.d);
    KeepDictionary(d0, st, st', k);
    KeepCounted(d0, st, st', k);
    KeepUntouched(d0, st, st', k);
    KeepOrdered(d0, st, st', k);
    forall j | 0 <= j < k + 1 && d0.commands[j].TextCommand? ensures Done(d0, st', j) {
      if j == k {
        DoneNow(d0, st, st', k);
      } else {
        DoneKept(d0, st, st', k, j);
      }
    }
  }

  /** A command that is not dialogue leaves the invariant as it is. */
  lemma SkipKeeps(d0: Doc, st: ExtState, k: nat)
    requires Inv(d0, st, k) && k < |d0.commands| && !d0.commands[k].TextCommand?
    ensures Inv(d0, st, k + 1)
  {
    forall id | 0 <= id < |d0.pool| && !OwnedBefore(d0, k + 1, id) ensures st.d.pool[id] == d0.pool[id] {
      assert !OwnedBefore(d0, k, id);
    }
  }

  /** A turn introduces a name only at its first speaker, and gives it the
      next id. */
  lemma KeepOrdered(d0: Doc, st: ExtState, st': ExtState, k: nat)
    requires Sane(d0) && k < |d0.commands| && d0.commands[k].TextCommand? && SameShape(d0, st.d)
    requires Dictionary(st) && DoneBefore(d0, st, k) && Ordered(d0, st, k) && Stepped(d0, st, st', k)
    ensures Ordered(d0, st', k + 1)
  {
    assert CommandRefsOk(d0, k);
    var c := d0.commands[k];
    if c.nameLine.Some? {
      var name := SpeakerName(d0.pool[c.nameLine.value].text);
      if name !in st.nameIds {
        assert Speaks(d0, k, name);
        assert FirstSpeaker(d0, name, 0) == k;
        assert st.nameCount !in st.names;
        assert st'.names == st.names[st.nameCount := name];
      }
    }
  }

  /** The Externalize loop from command k on succeeds exactly when every
      remaining dialogue command passes the Debug.Asserts, and then every
      dialogue command is externalized. */
  lemma {:induction false} ExternalizeFromInv(d0: Doc, st: ExtState, k: nat)
    requires Inv(d0, st, k)
    ensures var r := ExternalizeFrom(st, k);
      && (r.Ok? <==> forall j :: k <= j < |d0.commands| && d0.commands[j].TextCommand? ==> Externalizable(d0, j))
      && (r.Ok? ==> Inv(d0, r.value, |d0.commands|))
    decreases |d0.commands| - k
  {
    if k < |d0.commands| {
      if !d0.commands[k].TextCommand? {
        SkipKeeps(d0, st, k);
        ExternalizeFromInv(d0, st, k + 1);
      } else {
        StepEffect(d0, st, k);
        var r1 := ExternalizeCommand(st, k);
        if r1.Ok? {
          StepKeeps(d0, st, r1.value, k);
          ExternalizeFromInv(d0, r1.value, k + 1);
        }
      }
    }
  }

  // ---------------------------------------------------------------------
  // What Externalize promises

  /** Dialogue command k of `d` is externalized in `e` with the tables
      `tr` (Translations), `sp` (Speakers) and `nm` (Names). */
  ghost predicate CommandExternalized(d: Doc, e: Doc, tr: map<int, string>, sp: map<int, string>, nm: map<int, string>, k: nat)
    requires Sane(d) && SameShape(d, e) && k < |d.commands| && d.commands[k].TextCommand?
  {
    assert CommandRefsOk(d, k);
    var c := d.commands[k];
    var n := TextCount(d.commands, k) + 1;
    && e.pool[c.sourceLine].text == LineKey(n)
    && (forall i :: 0 <= i < |c.continuationLines| ==> e.pool[c.continuationLines[i]].text == Blank)
    && n in tr && tr[n] == Join(DialogueLines(d, k))
    && (c.nameLine.None? ==> n !in sp)
    && (c.nameLine.Some? ==>
          var t := d.pool[c.nameLine.value].text;
          var name := SpeakerName(t);
          && n in sp && sp[n] == name
          && exists m :: m in nm && nm[m] == name && e.pool[c.nameLine.value].text == NameKey(m) + t[|name|..])
  }

  /** `e` and `t` are what Externalize makes of `d`: the same lines and
      commands, every dialogue command externalized, dialogue ids 1 .. N
      for the N dialogue commands, name ids dense from 1 and one per name,
      each name some speaker line's and numbered in the order the names
      first appear, and every line no dialogue command owns as it was. */
  ghost predicate Externalized(d: Doc, e: Doc, t: Tables)
    requires Sane(d)
  {
    && SameShape(d, e) && e.sections == d.sections
    && t.translations.Some? && t.speakers.Some? && t.names.Some?
    && var tr, sp, nm := t.translations.value, t.speakers.value, t.names.value;
    && var total := TextCount(d.commands, |d.commands|);
    && (forall n :: n in tr <==> 1 <= n <= total)
    && (forall n :: n in sp ==> n in tr)
    && (forall m :: m in nm ==> 1 <= m <= total && (m > 1 ==> m - 1 in nm))
    && (forall a, b :: a in nm && b in nm && nm[a] == nm[b] ==> a == b)
    && NamesInOrder(d, nm)
    && (forall k :: 0 <= k < |d.commands| && d.commands[k].TextCommand? ==> CommandExternalized(d, e, tr, sp, nm, k))
    && (forall id :: 0 <= id < |d.pool| && !OwnedBefore(d, |d.commands|, id) ==> e.pool[id] == d.pool[id])
  }

  lemma InvExternalized(d: Doc, st: ExtState)
    requires Inv(d, st, |d.commands|)
    ensures Externalized(d, st.d, Tables(Some(st.translations), Some(st.speakers), Some(st.names)))
  {
    forall k | 0 <= k < |d.commands| && d.commands[k].TextCommand?
      ensures CommandExternalized(d, st.d, st.translations, st.speakers, st.names, k)
    {
      assert Done(d, st, k);
      assert CommandRefsOk(d, k);
      var c := d.commands[k];
      if c.nameLine.Some? {
        var name := SpeakerName(d.pool[c.nameLine.value].text);
        var m := st.nameIds[name];
        assert m in st.names && st.names[m] == name;
      }
    }
  }

  /** On a well-formed script with no tables, Externalize succeeds exactly
      when no dialogue starts with '@' and every speaker line has a name
      that does not start with '@', and then does what `Externalized`
      says; its result is still well formed. */
  lemma ExternalizeSpec(d: Doc)
    requires WellFormed(d)
    ensures var r := Externalize(d, NoTables);
      && (r.Ok? <==> AllExternalizable(d))
      && (r.Ok? ==> WellFormed(r.value.0) && Externalized(d, r.value.0, r.value.1))
  {
    var st0 := ExtState(d, map[], map[], map[], map[], 1, 1);
    assert Inv(d, st0, 0);
    ExternalizeFromInv(d, st0, 0);
    var r := ExternalizeFrom(st0, 0);
    if r.Ok? {
      InvExternalized(d, r.value);
      SameShapeWellFormed(d, r.value.d);
    }
  }
}
