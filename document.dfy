/** The in-memory document of a script (TenkiConv/Program.cs:88-101 and
    590-631): lines, commands and sections, with every object reference
    written as an index.

    - A line is a `ScriptLine` object; `pool` holds every line object ever
      created and a line's identity is its index there. `lines` is the
      `Lines` list, as identities in display order.
    - A command's identity is its index in `commands`, the `Commands` list,
      which never changes after parsing.
    - A section's identity is its index in `sections`.

    `WellFormed` is the invariant the parser establishes and the editing
    operations keep; `ValidateSpec` is what `Script.Validate` checks. */
module Document {
  import opened Wrappers
  import opened Classifier
  import opened Records

  datatype ScriptLine = ScriptLine(kind: LineType, text: string, lineNumber: int, command: Option<nat>)

  /** `ScriptCommand` and its subclass `TextCommand`: the section it belongs
      to, its index in that section, the line it was parsed from and, for
      dialogue, the speaker line and the continuation lines. */
  datatype ScriptCommand =
    | PlainCommand(section: nat, commandIndex: nat, sourceLine: nat)
    | TextCommand(section: nat, commandIndex: nat, sourceLine: nat,
                  nameLine: Option<nat>, continuationLines: seq<nat>)

  /** A scene: its record file, its records and its commands in order. */
  datatype ScriptSection = ScriptSection(path: string, entries: seq<SptEntry>, commands: seq<nat>)

  datatype Doc = Doc(pool: seq<ScriptLine>, lines: seq<nat>, commands: seq<ScriptCommand>, sections: seq<ScriptSection>)

  /** Every reference points at an existing object. In the original these
      are object references, which cannot dangle. */
  predicate Sane(d: Doc) {
    && (forall i :: 0 <= i < |d.lines| ==> d.lines[i] < |d.pool|)
    && (forall id :: 0 <= id < |d.pool| && d.pool[id].command.Some? ==> d.pool[id].command.value < |d.commands|)
    && (forall k :: 0 <= k < |d.commands| ==> d.commands[k].section < |d.sections| && d.commands[k].sourceLine < |d.pool|)
    && (forall k :: 0 <= k < |d.commands| ==> CommandRefsOk(d, k))
    && (forall s :: 0 <= s < |d.sections| ==> SectionRefsOk(d, s))
  }

  predicate CommandRefsOk(d: Doc, k: nat)
    requires k < |d.commands|
  {
    var c := d.commands[k];
    && c.section < |d.sections|
    && c.sourceLine < |d.pool|
    && (c.TextCommand? ==>
          && (c.nameLine.Some? ==> c.nameLine.value < |d.pool|)
          && forall i :: 0 <= i < |c.continuationLines| ==> c.continuationLines[i] < |d.pool|)
  }

  predicate SectionRefsOk(d: Doc, s: nat)
    requires s < |d.sections|
  {
    forall j :: 0 <= j < |d.sections[s].commands| ==> d.sections[s].commands[j] < |d.commands|
  }

  /** The line object at position `i` of `Lines`. */
  function Line(d: Doc, i: int): ScriptLine
    requires Sane(d) && 0 <= i < |d.lines|
  {
    d.pool[d.lines[i]]
  }

  function Kind(d: Doc, i: int): LineType
    requires Sane(d) && 0 <= i < |d.lines|
  {
    Line(d, i).kind
  }

  /** The line object `id` is in `Lines`, at the position its LineNumber says. */
  predicate OnPage(d: Doc, id: nat)
    requires id < |d.pool|
  {
    0 <= d.pool[id].lineNumber < |d.lines| && d.lines[d.pool[id].lineNumber] == id
  }

  /** The per-line invariant: LineNumber is the position, exactly Text and
      Command lines carry a command and are its source line, and a
      continuation follows dialogue. */
  predicate LineOk(d: Doc, i: int)
    requires Sane(d) && 0 <= i < |d.lines|
  {
    var l := Line(d, i);
    && l.lineNumber == i
    && (l.command.Some? <==> l.kind == Text || l.kind == Command)
    && (l.command.Some? ==> d.commands[l.command.value].sourceLine == d.lines[i])
    && (l.kind == TextContinuation ==> i > 0 && Kind(d, i - 1) in {Text, TextContinuation})
  }

  /** The per-command invariant: the source line is in `Lines` and points
      back, its kind matches the command's class, the section lists the
      command at its index, and dialogue is laid out as `LayoutOk` says. */
  predicate CommandOk(d: Doc, k: int)
    requires Sane(d) && 0 <= k < |d.commands|
  {
    assert CommandRefsOk(d, k);
    var c := d.commands[k];
    && OnPage(d, c.sourceLine)
    && d.pool[c.sourceLine].command == Some(k)
    && d.pool[c.sourceLine].kind == (if c.TextCommand? then Text else Command)
    && c.commandIndex < |d.sections[c.section].commands|
    && d.sections[c.section].commands[c.commandIndex] == k
    && (c.TextCommand? ==> LayoutOk(d, k))
  }

  /** A dialogue command at position p with m continuation lines: they are
      the lines p+1 .. p+m, all continuations, and the line after them is
      not one; the name line is the speaker line right above, if any. */
  predicate LayoutOk(d: Doc, k: int)
    requires Sane(d) && 0 <= k < |d.commands| && d.commands[k].TextCommand?
    requires CommandRefsOk(d, k) && OnPage(d, d.commands[k].sourceLine)
  {
    var c := d.commands[k];
    var p := d.pool[c.sourceLine].lineNumber;
    var m := |c.continuationLines|;
    && p + m < |d.lines|
    && (forall i :: 0 <= i < m ==> d.lines[p + 1 + i] == c.continuationLines[i])
    && (forall i :: p < i <= p + m ==> Kind(d, i) == TextContinuation)
    && (p + m + 1 < |d.lines| ==> Kind(d, p + m + 1) != TextContinuation)
    && (c.nameLine.Some? <==> p > 0 && Kind(d, p - 1) == Speaker)
    && (c.nameLine.Some? ==> c.nameLine.value == d.lines[p - 1])
  }

  /** Every command a section lists names that section and that index. */
  predicate SectionOk(d: Doc, s: int)
    requires Sane(d) && 0 <= s < |d.sections|
  {
    assert SectionRefsOk(d, s);
    var sc := d.sections[s].commands;
    forall j :: 0 <= j < |sc| ==> d.commands[sc[j]].section == s && d.commands[sc[j]].commandIndex == j
  }

  predicate WellFormed(d: Doc) {
    && Sane(d)
    && (forall i :: 0 <= i < |d.lines| ==> LineOk(d, i))
    && (forall k :: 0 <= k < |d.commands| ==> CommandOk(d, k))
    && (forall s :: 0 <= s < |d.sections| ==> SectionOk(d, s))
  }

  /** Position of a line object; under `WellFormed` it is its index. */
  function Position(d: Doc, id: nat): int
    requires id < |d.pool|
  {
    d.pool[id].lineNumber
  }

  lemma LinesDistinct(d: Doc, i: int, j: int)
    requires WellFormed(d) && 0 <= i < |d.lines| && 0 <= j < |d.lines|
    ensures d.lines[i] == d.lines[j] <==> i == j
  {
    assert LineOk(d, i) && LineOk(d, j);
  }

  // ---------------------------------------------------------------------
  // What Validate checks (Program.cs:317-356)

  /** The scan of Validate for a continuation: from position j downwards
      the first line that is not a continuation, or -1. */
  function PrevNonCont(d: Doc, j: int): (r: int)
    requires Sane(d) && -1 <= j < |d.lines|
    ensures -1 <= r <= j
    ensures r >= 0 ==> Kind(d, r) != TextContinuation
    ensures forall i :: r < i <= j ==> Kind(d, i) == TextContinuation
    decreases j + 1
  {
    if j < 0 then -1
    else if Kind(d, j) == TextContinuation then PrevNonCont(d, j - 1)
    else j
  }

  /** The checks Validate makes of the line at position i. An index out of
      range or a failed assertion are both failures. */
  predicate LineChecks(d: Doc, i: int)
    requires Sane(d) && 0 <= i < |d.lines|
  {
    var l := Line(d, i);
    && (l.command.Some? ==> d.commands[l.command.value].sourceLine == d.lines[i])
    && SpeakerFollowed(d, i)
    && (l.kind == TextContinuation ==> ContinuationChecks(d, i))
  }

  /** A speaker line must be followed by a dialogue line. */
  predicate SpeakerFollowed(d: Doc, i: int)
    requires Sane(d) && 0 <= i < |d.lines|
  {
    Kind(d, i) == Speaker ==> i + 1 < |d.lines| && Kind(d, i + 1) == Text
  }

  /** A continuation at position i is continuation number i-j-1 of the
      dialogue command of the nearest line j above that is not one. */
  predicate ContinuationChecks(d: Doc, i: int)
    requires Sane(d) && 0 <= i < |d.lines|
  {
    var j := PrevNonCont(d, i - 1);
    && j >= 0
    && Kind(d, j) == Text
    && Line(d, j).command.Some?
    && d.commands[Line(d, j).command.value].TextCommand?
    && i - j - 1 < |d.commands[Line(d, j).command.value].continuationLines|
    && d.commands[Line(d, j).command.value].continuationLines[i - j - 1] == d.lines[i]
  }

  /** A section has exactly as many commands as records. */
  predicate CountMatches(d: Doc, s: int)
    requires Sane(d) && 0 <= s < |d.sections|
  {
    |d.sections[s].commands| == |d.sections[s].entries|
  }

  predicate CommandChecks(d: Doc, k: int)
    requires Sane(d) && 0 <= k < |d.commands|
  {
    assert CommandRefsOk(d, k);
    var c := d.commands[k];
    && c.commandIndex < |d.sections[c.section].commands|
    && d.sections[c.section].commands[c.commandIndex] == k
    && d.pool[c.sourceLine].command == Some(k)
  }

  predicate ValidateSpec(d: Doc)
    requires Sane(d)
  {
    && (forall i :: 0 <= i < |d.lines| ==> LineChecks(d, i))
    && CountsMatch(d)
    && (forall k :: 0 <= k < |d.commands| ==> CommandChecks(d, k))
  }

  predicate SpeakersFollowed(d: Doc)
    requires Sane(d)
  {
    forall i :: 0 <= i < |d.lines| ==> SpeakerFollowed(d, i)
  }

  predicate CountsMatch(d: Doc)
    requires Sane(d)
  {
    forall s :: 0 <= s < |d.sections| ==> CountMatches(d, s)
  }

  /** In a well-formed document each continuation is found by Validate's
      backward scan. */
  lemma ContinuationFound(d: Doc, i: int)
    requires WellFormed(d) && 0 <= i < |d.lines| && Kind(d, i) == TextContinuation
    ensures ContinuationChecks(d, i)
  {
    assert LineOk(d, i);
    var j := PrevNonCont(d, i - 1);
    assert Kind(d, j + 1) == TextContinuation;
    assert LineOk(d, j + 1);
    assert j >= 0 && Kind(d, j) == Text;
    assert LineOk(d, j);
    var k := Line(d, j).command.value;
    assert CommandOk(d, k);
    var c := d.commands[k];
    assert c.TextCommand? && LayoutOk(d, k);
    var m := |c.continuationLines|;
    assert i - j - 1 < m;
    assert d.lines[j + 1 + (i - j - 1)] == c.continuationLines[i - j - 1];
  }

  /** On a well-formed document Validate can fail only because a speaker
      line is not followed by dialogue or because a section's command count
      differs from its record count. */
  lemma ValidateWellFormed(d: Doc)
    requires WellFormed(d)
    ensures ValidateSpec(d) <==> SpeakersFollowed(d) && CountsMatch(d)
  {
    forall i | 0 <= i < |d.lines|
      ensures LineChecks(d, i) <==> SpeakerFollowed(d, i)
    {
      assert LineOk(d, i);
      if Kind(d, i) == TextContinuation {
        ContinuationFound(d, i);
      }
    }
    forall k | 0 <= k < |d.commands| ensures CommandChecks(d, k) {
      assert CommandOk(d, k);
    }
  }

  // ---------------------------------------------------------------------
  // Consequences of WellFormed used by the operations

  /** Two dialogue commands: the earlier one's continuation run ends before
      the later one's source line. */
  lemma RunsDisjoint(d: Doc, x: int, k: int)
    requires WellFormed(d) && 0 <= x < |d.commands| && 0 <= k < |d.commands|
    requires d.commands[x].TextCommand? && d.commands[k].TextCommand?
    requires Position(d, d.commands[x].sourceLine) < Position(d, d.commands[k].sourceLine)
    ensures Position(d, d.commands[x].sourceLine) + |d.commands[x].continuationLines|
            < Position(d, d.commands[k].sourceLine)
  {
    assert CommandOk(d, x) && CommandOk(d, k);
    assert CommandRefsOk(d, x) && CommandRefsOk(d, k);
    var p := Position(d, d.commands[k].sourceLine);
    assert Kind(d, p) == Text;
  }

  /** When the last line is dialogue, the nearest line above that is not a
      continuation is a dialogue source line whose command owns every line
      after it. */
  lemma OpenDialogue(d: Doc)
    requires WellFormed(d) && |d.lines| > 0
    requires Kind(d, |d.lines| - 1) in {Text, TextContinuation}
    ensures var j := PrevNonCont(d, |d.lines| - 1);
      && 0 <= j && Kind(d, j) == Text && Line(d, j).command.Some?
      && Line(d, j).command.value < |d.commands|
      && d.commands[Line(d, j).command.value].TextCommand?
      && d.commands[Line(d, j).command.value].sourceLine == d.lines[j]
      && j + |d.commands[Line(d, j).command.value].continuationLines| == |d.lines| - 1
  {
    var n := |d.lines|;
    var j := PrevNonCont(d, n - 1);
    if j < n - 1 {
      assert Kind(d, j + 1) == TextContinuation;
      assert LineOk(d, j + 1);
    }
    assert j >= 0 && Kind(d, j) == Text;
    assert LineOk(d, j);
    var k := Line(d, j).command.value;
    assert CommandOk(d, k);
    assert CommandRefsOk(d, k);
    var m := |d.commands[k].continuationLines|;
    assert d.pool[d.lines[j]].lineNumber == j;
  }

  /** A command stays well formed when the document grows at the end and
      nothing it refers to changes, provided a run that reached the old end
      is not extended by a continuation. */
  lemma ExtendKeepsCommand(d: Doc, d': Doc, x: int)
    requires Sane(d) && Sane(d') && 0 <= x < |d.commands| && x < |d'.commands| && CommandOk(d, x)
    requires d'.commands[x] == d.commands[x]
    requires |d.lines| <= |d'.lines| && forall i :: 0 <= i < |d.lines| ==> d'.lines[i] == d.lines[i]
    requires forall i :: 0 <= i < |d.lines| ==> d'.pool[d.lines[i]] == d.pool[d.lines[i]]
    requires var c := d.commands[x];
      c.commandIndex < |d'.sections[c.section].commands| && d'.sections[c.section].commands[c.commandIndex] == x
    requires var c := d.commands[x];
      c.TextCommand? && Position(d, c.sourceLine) + |c.continuationLines| + 1 == |d.lines| < |d'.lines|
      ==> Kind(d', |d.lines|) != TextContinuation
    ensures CommandOk(d', x)
  {
    assert CommandRefsOk(d, x) && CommandRefsOk(d', x);
    var c := d.commands[x];
    if c.TextCommand? {
      assert LayoutOk(d, x);
      var p := Position(d, c.sourceLine);
      assert forall i :: 0 <= i < |d.lines| ==> Kind(d', i) == Kind(d, i);
      assert LayoutOk(d', x);
    }
  }

  // ---------------------------------------------------------------------
  // Views and shape-preserving edits

  /** The texts of `Lines`, in order: what `WriteCode` would write. */
  function Texts(d: Doc): (r: seq<string>)
    requires Sane(d)
    ensures |r| == |d.lines| && forall i :: 0 <= i < |d.lines| ==> r[i] == Line(d, i).text
  {
    seq(|d.lines|, i requires 0 <= i < |d.lines| => Line(d, i).text)
  }

  /** The kinds of `Lines`, in order. */
  function Kinds(d: Doc): (r: seq<LineType>)
    requires Sane(d)
    ensures |r| == |d.lines| && forall i :: 0 <= i < |d.lines| ==> r[i] == Kind(d, i)
  {
    seq(|d.lines|, i requires 0 <= i < |d.lines| => Kind(d, i))
  }

  /** The line objects among `ids` that are not continuations, in order:
      the lines of a page that a re-layout does not add or remove. */
  function Skeleton(pool: seq<ScriptLine>, ids: seq<nat>): (r: seq<nat>)
    requires forall j :: 0 <= j < |ids| ==> ids[j] < |pool|
    ensures forall j :: 0 <= j < |r| ==> r[j] in ids && pool[r[j]].kind != TextContinuation
    ensures forall j :: 0 <= j < |ids| && pool[ids[j]].kind != TextContinuation ==> ids[j] in r
  {
    if |ids| == 0 then []
    else
      var last := ids[|ids| - 1];
      Skeleton(pool, ids[..|ids| - 1]) + (if pool[last].kind == TextContinuation then [] else [last])
  }

  lemma {:induction false} SkeletonAppend(pool: seq<ScriptLine>, a: seq<nat>, b: seq<nat>)
    requires forall j :: 0 <= j < |a| ==> a[j] < |pool|
    requires forall j :: 0 <= j < |b| ==> b[j] < |pool|
    ensures forall j :: 0 <= j < |a + b| ==> (a + b)[j] < |pool|
    ensures Skeleton(pool, a + b) == Skeleton(pool, a) + Skeleton(pool, b)
  {
    if |b| > 0 {
      var b0 := b[..|b| - 1];
      assert (a + b)[..|a + b| - 1] == a + b0;
      SkeletonAppend(pool, a, b0);
    } else {
      assert a + b == a;
    }
  }

  /** The skeleton depends on the kinds of the lines only. */
  lemma {:induction false} SkeletonAgree(pool: seq<ScriptLine>, pool': seq<ScriptLine>, ids: seq<nat>)
    requires forall j :: 0 <= j < |ids| ==> ids[j] < |pool| && ids[j] < |pool'|
    requires forall j :: 0 <= j < |ids| ==> pool'[ids[j]].kind == pool[ids[j]].kind
    ensures Skeleton(pool', ids) == Skeleton(pool, ids)
  {
    if |ids| > 0 {
      SkeletonAgree(pool, pool', ids[..|ids| - 1]);
    }
  }

  lemma {:induction false} SkeletonConts(pool: seq<ScriptLine>, ids: seq<nat>)
    requires forall j :: 0 <= j < |ids| ==> ids[j] < |pool| && pool[ids[j]].kind == TextContinuation
    ensures Skeleton(pool, ids) == []
  {
    if |ids| > 0 {
      SkeletonConts(pool, ids[..|ids| - 1]);
    }
  }

  /** Swapping a run of continuations for another keeps the skeleton,
      when the other line objects keep their kinds. */
  lemma SkeletonSplice(pool: seq<ScriptLine>, pool': seq<ScriptLine>, a: seq<nat>, b: seq<nat>, b': seq<nat>, c: seq<nat>)
    requires |pool'| >= |pool|
    requires forall id :: 0 <= id < |pool| ==> pool'[id].kind == pool[id].kind
    requires forall j :: 0 <= j < |a| ==> a[j] < |pool|
    requires forall j :: 0 <= j < |c| ==> c[j] < |pool|
    requires forall j :: 0 <= j < |b| ==> b[j] < |pool| && pool[b[j]].kind == TextContinuation
    requires forall j :: 0 <= j < |b'| ==> b'[j] < |pool'| && pool'[b'[j]].kind == TextContinuation
    ensures forall j :: 0 <= j < |a + b + c| ==> (a + b + c)[j] < |pool|
    ensures forall j :: 0 <= j < |a + b' + c| ==> (a + b' + c)[j] < |pool'|
    ensures Skeleton(pool', a + b' + c) == Skeleton(pool, a + b + c)
  {
    SkeletonConts(pool, b);
    SkeletonConts(pool', b');
    SkeletonAgree(pool, pool', a);
    SkeletonAgree(pool, pool', c);
    SkeletonAppend(pool, a, b);
    SkeletonAppend(pool, a + b, c);
    SkeletonAppend(pool', a, b');
    SkeletonAppend(pool', a + b', c);
  }

  /** `command.SptEntry`, `Section.Entries[CommandIndex]`, exists. */
  predicate HasEntry(d: Doc, k: nat)
    requires Sane(d) && k < |d.commands|
  {
    d.commands[k].commandIndex < |d.sections[d.commands[k].section].entries|
  }

  /** Every line's LineNumber is its position (part of `WellFormed`). */
  predicate Numbered(d: Doc) {
    && Sane(d)
    && forall i {:trigger d.lines[i]} :: 0 <= i < |d.lines| ==> d.pool[d.lines[i]].lineNumber == i
  }

  lemma WellFormedNumbered(d: Doc)
    requires WellFormed(d)
    ensures Numbered(d)
  {
    forall i | 0 <= i < |d.lines| ensures d.pool[d.lines[i]].lineNumber == i {
      assert LineOk(d, i);
    }
  }

  /** `d'` differs from `d` only in line texts and in section records. */
  predicate SameShape(d: Doc, d': Doc) {
    && d'.lines == d.lines
    && d'.commands == d.commands
    && |d'.pool| == |d.pool|
    && (forall id :: 0 <= id < |d.pool| ==>
          && d'.pool[id].kind == d.pool[id].kind
          && d'.pool[id].lineNumber == d.pool[id].lineNumber
          && d'.pool[id].command == d.pool[id].command)
    && |d'.sections| == |d.sections|
    && (forall s :: 0 <= s < |d.sections| ==> d'.sections[s].commands == d.sections[s].commands)
  }

  /** Rewriting texts and records keeps the invariant: it mentions neither. */
  lemma SameShapeWellFormed(d: Doc, d': Doc)
    requires Sane(d) && SameShape(d, d')
    ensures Sane(d') && Kinds(d') == Kinds(d)
    ensures WellFormed(d) ==> WellFormed(d')
  {
    SameShapeSane(d, d');
    if WellFormed(d) {
      forall i | 0 <= i < |d'.lines| ensures LineOk(d', i) {
        assert LineOk(d, i);
      }
      forall k | 0 <= k < |d'.commands| ensures CommandOk(d', k) {
        SameShapeCommand(d, d', k);
      }
      forall s | 0 <= s < |d'.sections| ensures SectionOk(d', s) {
        assert SectionOk(d, s);
      }
    }
  }

  lemma SameShapeSane(d: Doc, d': Doc)
    requires Sane(d) && SameShape(d, d')
    ensures Sane(d') && Kinds(d') == Kinds(d)
  {
    assert forall k :: 0 <= k < |d.commands| ==> CommandRefsOk(d, k) == CommandRefsOk(d', k);
    assert forall s :: 0 <= s < |d.sections| ==> SectionRefsOk(d, s) == SectionRefsOk(d', s);
    assert forall i :: 0 <= i < |d.lines| ==> Kind(d', i) == Kind(d, i);
  }

  lemma SameShapeTrans(d: Doc, d1: Doc, d2: Doc)
    requires SameShape(d, d1) && SameShape(d1, d2)
    ensures SameShape(d, d2)
  {
  }

  lemma SameShapeCommand(d: Doc, d': Doc, k: nat)
    requires Sane(d) && Sane(d') && SameShape(d, d') && k < |d.commands| && CommandOk(d, k)
    ensures CommandOk(d', k)
  {
    assert CommandRefsOk(d, k) && CommandRefsOk(d', k);
    if d.commands[k].TextCommand? {
      assert LayoutOk(d, k);
      var c := d.commands[k];
      var p := d.pool[c.sourceLine].lineNumber;
      assert forall i :: p < i <= p + |c.continuationLines| ==> Kind(d', i) == Kind(d, i);
      assert p > 0 ==> Kind(d', p - 1) == Kind(d, p - 1);
      assert p + |c.continuationLines| + 1 < |d.lines| ==>
        Kind(d', p + |c.continuationLines| + 1) == Kind(d, p + |c.continuationLines| + 1);
    }
  }

  /** ... and, with the record counts kept, what Validate concludes. */
  lemma SameShapeValidate(d: Doc, d': Doc)
    requires WellFormed(d) && SameShape(d, d')
    requires forall s :: 0 <= s < |d.sections| ==> |d'.sections[s].entries| == |d.sections[s].entries|
    ensures Sane(d') && (ValidateSpec(d') <==> ValidateSpec(d))
  {
    SameShapeWellFormed(d, d');
    ValidateWellFormed(d);
    ValidateWellFormed(d');
    assert SpeakersFollowed(d') <==> SpeakersFollowed(d) by {
      assert forall i :: 0 <= i < |d.lines| ==> Kind(d', i) == Kinds(d)[i] == Kind(d, i);
      assert forall i :: 0 <= i < |d.lines| ==> (SpeakerFollowed(d', i) <==> SpeakerFollowed(d, i));
    }
    assert CountsMatch(d') <==> CountsMatch(d) by {
      assert forall s :: 0 <= s < |d.sections| ==> (CountMatches(d', s) <==> CountMatches(d, s));
    }
  }
}
