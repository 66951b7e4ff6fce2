/** `Script.ParseCode` (TenkiConv/Program.cs:106-175): one pass over the
    lines of a script that classifies each line, groups dialogue lines,
    attaches speaker lines, numbers commands per section and loads each
    section's record file.

    The record file is read through a `Loader`: the int32 values stored
    under a file name, or None when the file cannot be opened. */
module Parser {
  import opened Wrappers
  import opened Classifier
  import opened Records
  import opened Document
  import Patterns

  /** Why parsing stops. A failed Debug.Assert and an exception both end
      the run. */
  datatype ParseError =
    | CommandBeforeSection(lineNo: nat)   // a command before the first section header
    | MalformedHeader(lineNo: nat)        // a "***" line the section pattern does not match
    | MissingRecords(lineNo: nat)         // the section's record file cannot be opened
    | MalformedRecords(lineNo: nat)       // the record file is shorter than its count says
    | NoOpenDialogue(lineNo: nat)         // no dialogue command to continue

  type Loader = string -> Option<seq<int>>

  /** The state of the ParseCode closure: the lists built so far and the
      variables lastLine, lastLineType, currentSection and commandIndex. */
  datatype Parser = Parser(
    doc: Doc,
    lastLine: Option<nat>,
    lastLineType: LineType,
    currentSection: Option<nat>,
    commandIndex: nat)

  /** What ParseLine hands back: the updated state, the new line and the
      command that line carries. */
  datatype Step = Step(next: Parser, line: ScriptLine, command: Option<ScriptCommand>)

  /** The section a header line opens: its record file "<name>.spt" and the
      records read from it. */
  function LoadSection(lineText: string, lineNo: nat, load: Loader): (r: Result<ScriptSection, ParseError>)
    ensures r.Ok? ==> r.value.commands == []
  {
    match Patterns.SectionName(lineText)
    case None => Err(MalformedHeader(lineNo))
    case Some(name) =>
      var path := name + ".spt";
      match load(path)
      case None => Err(MissingRecords(lineNo))
      case Some(xs) =>
        match DecodeEntries(xs)
        case None => Err(MalformedRecords(lineNo))
        case Some(es) => Ok(ScriptSection(path, es, []))
  }

  /** `lines.Last(line => line.Type == LineType.Text)`: the last dialogue
      source line at or before position i, or -1. */
  function LastTextLine(d: Doc, i: int): (r: int)
    requires Sane(d) && -1 <= i < |d.lines|
    ensures -1 <= r <= i
    ensures r >= 0 ==> Kind(d, r) == Text
    ensures forall j :: r < j <= i ==> Kind(d, j) != Text
    decreases i + 1
  {
    if i < 0 then -1 else if Kind(d, i) == Text then i else LastTextLine(d, i - 1)
  }

  /** A new command is registered with its section (the base constructor
      of ScriptCommand). */
  function AddToSection(d: Doc, s: nat): Doc
    requires s < |d.sections|
  {
    d.(sections := d.sections[s := d.sections[s].(commands := d.sections[s].commands + [|d.commands|])])
  }

  /** The ParseLine closure. The new line's identity is the next free index
      of the pool. */
  function ParseLine(st: Parser, lineText: string, lineNo: nat, load: Loader): Result<Step, ParseError>
    requires Sane(st.doc)
    requires st.currentSection.Some? ==> st.currentSection.value < |st.doc.sections|
  {
    var d := st.doc;
    var id := |d.pool|;
    var t := GetLineType(lineText);
    if t == Text || t == TextContinuation then
      if st.lastLineType == Text || st.lastLineType == TextContinuation then
        var j := LastTextLine(d, |d.lines| - 1);
        if j < 0 || Line(d, j).command.None? || !d.commands[Line(d, j).command.value].TextCommand? then
          Err(NoOpenDialogue(lineNo))
        else
          var k := Line(d, j).command.value;
          var c := d.commands[k];
          var c' := c.(continuationLines := c.continuationLines + [id]);
          Ok(Step(st.(doc := d.(commands := d.commands[k := c'])),
                  ScriptLine(TextContinuation, lineText, lineNo, Option.None), Option.None))
      else if st.currentSection.None? then
        Err(CommandBeforeSection(lineNo))
      else
        var s := st.currentSection.value;
        var nameLine := if st.lastLineType == Speaker then st.lastLine else Option.None;
        var cmd := TextCommand(s, st.commandIndex, id, nameLine, []);
        Ok(Step(st.(doc := AddToSection(d, s), commandIndex := st.commandIndex + 1),
                ScriptLine(Text, lineText, lineNo, Some(|d.commands|)), Some(cmd)))
    else if t == Command then
      if st.currentSection.None? then
        Err(CommandBeforeSection(lineNo))
      else
        var s := st.currentSection.value;
        var cmd := PlainCommand(s, st.commandIndex, id);
        Ok(Step(st.(doc := AddToSection(d, s), commandIndex := st.commandIndex + 1),
                ScriptLine(Command, lineText, lineNo, Some(|d.commands|)), Some(cmd)))
    else if t == Section then
      match LoadSection(lineText, lineNo, load)
      case Err(e) => Err(e)
      case Ok(sec) =>
        Ok(Step(st.(doc := d.(sections := d.sections + [sec]), currentSection := Some(|d.sections|), commandIndex := 0),
                ScriptLine(Section, lineText, lineNo, Option.None), Option.None))
    else
      Ok(Step(st, ScriptLine(t, lineText, lineNo, Option.None), Option.None))
  }

  /** The driver's bookkeeping after each ParseLine: the line is added to
      Lines, its command to Commands, and it becomes lastLine. */
  function Commit(step: Step): Parser {
    var d := step.next.doc;
    var commands := if step.command.Some? then d.commands + [step.command.value] else d.commands;
    step.next.(doc := d.(pool := d.pool + [step.line], lines := d.lines + [|d.pool|], commands := commands),
               lastLine := Some(|d.pool|), lastLineType := step.line.kind)
  }

  // ---------------------------------------------------------------------
  // The parse described line by line

  /** The kind the parser gives line i: the classifier's, except that
      dialogue right after dialogue is a continuation. */
  function ClassOf(input: seq<string>, i: nat): LineType
    requires i < |input|
  {
    var t := GetLineType(input[i]);
    if t == Text && i > 0 && ClassOf(input, i - 1) in {Text, TextContinuation} then TextContinuation else t
  }

  predicate IsCommandLine(input: seq<string>, i: nat)
    requires i < |input|
  {
    ClassOf(input, i) == Text || ClassOf(input, i) == Command
  }

  /** Number of section headers among the first i lines. */
  function SectionsBefore(input: seq<string>, i: nat): nat
    requires i <= |input|
  {
    if i == 0 then 0 else SectionsBefore(input, i - 1) + (if ClassOf(input, i - 1) == Section then 1 else 0)
  }

  /** Number of command lines among the first i lines. */
  function CommandsBefore(input: seq<string>, i: nat): nat
    requires i <= |input|
  {
    if i == 0 then 0 else CommandsBefore(input, i - 1) + (if IsCommandLine(input, i - 1) then 1 else 0)
  }

  /** Number of command lines among the first i lines since the last
      section header. */
  function IndexInSection(input: seq<string>, i: nat): nat
    requires i <= |input|
  {
    if i == 0 then 0
    else if ClassOf(input, i - 1) == Section then 0
    else IndexInSection(input, i - 1) + (if IsCommandLine(input, i - 1) then 1 else 0)
  }

  /** A line that is neither a command nor a header leaves every count as
      it was. */
  lemma PlainStep(input: seq<string>, n: nat)
    requires n < |input| && ClassOf(input, n) !in {Text, Command, Section}
    ensures CommandsBefore(input, n + 1) == CommandsBefore(input, n)
    ensures SectionsBefore(input, n + 1) == SectionsBefore(input, n)
    ensures IndexInSection(input, n + 1) == IndexInSection(input, n)
  {
  }

  lemma CommandStep(input: seq<string>, n: nat)
    requires n < |input| && ClassOf(input, n) in {Text, Command}
    ensures CommandsBefore(input, n + 1) == CommandsBefore(input, n) + 1
    ensures SectionsBefore(input, n + 1) == SectionsBefore(input, n)
    ensures IndexInSection(input, n + 1) == IndexInSection(input, n) + 1
  {
  }

  lemma SectionStep(input: seq<string>, n: nat)
    requires n < |input| && ClassOf(input, n) == Section
    ensures CommandsBefore(input, n + 1) == CommandsBefore(input, n)
    ensures SectionsBefore(input, n + 1) == SectionsBefore(input, n) + 1
    ensures IndexInSection(input, n + 1) == 0
  {
  }

  /** Why line i stops the parse, if it does. */
  function LineError(input: seq<string>, load: Loader, i: nat): Option<ParseError>
    requires i < |input|
  {
    if IsCommandLine(input, i) && SectionsBefore(input, i) == 0 then Some(CommandBeforeSection(i))
    else if ClassOf(input, i) == Section && LoadSection(input[i], i, load).Err? then
      Some(LoadSection(input[i], i, load).error)
    else Option.None
  }

  /** Command k comes from the k-th command line, belongs to the section of
      the last header above it and is numbered within that section. */
  ghost predicate CommandPlaced(input: seq<string>, d: Doc, k: nat)
    requires k < |d.commands|
  {
    var c := d.commands[k];
    && c.sourceLine < |input|
    && CommandsBefore(input, c.sourceLine) == k
    && SectionsBefore(input, c.sourceLine) == c.section + 1
    && IndexInSection(input, c.sourceLine) == c.commandIndex
  }

  /** Section s is the one the s-th header line loaded. */
  ghost predicate SectionLoaded(input: seq<string>, load: Loader, d: Doc, s: nat)
    requires s < |d.sections|
  {
    exists i :: 0 <= i < |d.pool| && i < |input| && ClassOf(input, i) == Section && SectionsBefore(input, i) == s
                && LoadSection(input[i], i, load) == Ok(d.sections[s].(commands := []))
  }

  /** `d` is the document for the first n lines of `input`. */
  ghost predicate PartParsed(input: seq<string>, load: Loader, n: nat, d: Doc) {
    WellFormed(d) && Matches(input, load, n, d)
  }

  /** The lines, commands and sections of `d` are those of the first n
      lines of `input`. */
  ghost predicate Matches(input: seq<string>, load: Loader, n: nat, d: Doc) {
    LinesMatch(input, n, d) && CommandsMatch(input, n, d) && SectionsMatch(input, load, n, d)
  }

  /** Line i is the i-th input line with the kind the parser gives it. */
  ghost predicate LinesMatch(input: seq<string>, n: nat, d: Doc) {
    && n <= |input|
    && |d.pool| == n && |d.lines| == n
    && (forall i :: 0 <= i < n ==> d.lines[i] == i)
    && (forall i :: 0 <= i < n ==> d.pool[i].text == input[i])
    && (forall i {:trigger ClassOf(input, i)} :: 0 <= i < n ==> d.pool[i].kind == ClassOf(input, i))
  }

  ghost predicate CommandsMatch(input: seq<string>, n: nat, d: Doc) {
    && n <= |input|
    && |d.commands| == CommandsBefore(input, n)
    && (forall k :: 0 <= k < |d.commands| ==> CommandPlaced(input, d, k))
  }

  ghost predicate SectionsMatch(input: seq<string>, load: Loader, n: nat, d: Doc) {
    && n <= |input|
    && |d.sections| == SectionsBefore(input, n)
    && (forall s :: 0 <= s < |d.sections| ==> SectionLoaded(input, load, d, s))
  }

  ghost predicate Parsed(input: seq<string>, load: Loader, d: Doc) {
    PartParsed(input, load, |input|, d)
  }

  /** None of the first n lines stops the parse. */
  ghost predicate NoErrorBefore(input: seq<string>, load: Loader, n: nat)
    requires n <= |input|
  {
    forall j :: 0 <= j < n ==> LineError(input, load, j).None?
  }

  /** The loop invariant of the driver. */
  ghost predicate Inv(input: seq<string>, load: Loader, n: nat, st: Parser) {
    && PartParsed(input, load, n, st.doc)
    && (st.lastLine.None? <==> n == 0) && (st.lastLine.Some? ==> st.lastLine.value == n - 1)
    && st.lastLineType == (if n == 0 then LineType.None else ClassOf(input, n - 1))
    && (st.currentSection.None? <==> |st.doc.sections| == 0)
    && (st.currentSection.Some? ==> st.currentSection.value == |st.doc.sections| - 1)
    && st.commandIndex == IndexInSection(input, n)
    && (|st.doc.sections| > 0 ==> st.commandIndex == |st.doc.sections[|st.doc.sections| - 1].commands|)
    && NoErrorBefore(input, load, n)
  }

  const Initial := Parser(Doc([], [], [], []), Option.None, LineType.None, Option.None, 0)

  lemma InitialInv(input: seq<string>, load: Loader)
    ensures Inv(input, load, 0, Initial)
  {
    assert WellFormed(Initial.doc);
  }

  /** ParseCode: the document, or the error of the first line that stops
      the parse. */
  method ParseCode(input: seq<string>, load: Loader) returns (r: Result<Doc, ParseError>)
    ensures r.Ok? <==> forall i :: 0 <= i < |input| ==> LineError(input, load, i).None?
    ensures r.Ok? ==> Parsed(input, load, r.value)
    ensures r.Err? ==> exists i :: 0 <= i < |input| && LineError(input, load, i) == Some(r.error)
                                  && forall j :: 0 <= j < i ==> LineError(input, load, j).None?
  {
    var st := Initial;
    InitialInv(input, load);
    var lineNo := 0;
    while lineNo < |input|
      invariant lineNo <= |input|
      invariant Inv(input, load, lineNo, st)
    {
      var res := ParseLine(st, input[lineNo], lineNo, load);
      StepCorrect(input, load, lineNo, st);
      if res.Err? {
        Stopped(input, load, lineNo, st);
        return Err(res.error);
      }
      st := Commit(res.value);
      lineNo := lineNo + 1;
    }
    Finished(input, load, st);
    return Ok(st.doc);
  }

  /** A line the parser refuses is the first line that stops the parse. */
  lemma Stopped(input: seq<string>, load: Loader, n: nat, st: Parser)
    requires n < |input| && Inv(input, load, n, st) && StepOk(input, load, n, st)
    requires ParseLine(st, input[n], n, load).Err?
    ensures var e := ParseLine(st, input[n], n, load).error;
      && LineError(input, load, n) == Some(e)
      && (forall j :: 0 <= j < n ==> LineError(input, load, j).None?)
      && !(forall i :: 0 <= i < |input| ==> LineError(input, load, i).None?)
  {
  }

  /** Once every line is read, no line stopped the parse and the document
      is the one the description gives. */
  lemma Finished(input: seq<string>, load: Loader, st: Parser)
    requires Inv(input, load, |input|, st)
    ensures forall i :: 0 <= i < |input| ==> LineError(input, load, i).None?
    ensures Parsed(input, load, st.doc)
  {
  }

  /** One step of the driver keeps the invariant, or stops exactly where
      the line-by-line description says. */
  ghost predicate StepOk(input: seq<string>, load: Loader, n: nat, st: Parser)
    requires n < |input| && Inv(input, load, n, st)
  {
    var res := ParseLine(st, input[n], n, load);
    && (res.Err? <==> LineError(input, load, n).Some?)
    && (res.Err? ==> LineError(input, load, n) == Some(res.error))
    && (res.Ok? ==> Inv(input, load, n + 1, Commit(res.value)))
  }

  lemma StepCorrect(input: seq<string>, load: Loader, n: nat, st: Parser)
    requires n < |input| && Inv(input, load, n, st)
    ensures StepOk(input, load, n, st)
  {
    var t := GetLineType(input[n]);
    if t == Text && n > 0 && ClassOf(input, n - 1) in {Text, TextContinuation} {
      StepContinuation(input, load, n, st);
    } else if t == Text || t == Command {
      if |st.doc.sections| > 0 {
        StepCommand(input, load, n, st);
      } else {
        StepNoSection(input, load, n, st);
      }
    } else if t == Section {
      if LoadSection(input[n], n, load).Ok? {
        StepSection(input, load, n, st);
      } else {
        StepBadSection(input, load, n, st);
      }
    } else {
      StepOther(input, load, n, st);
    }
  }

  // ---------------------------------------------------------------------
  // Appending one line keeps the document well formed

  /** Lines lists every line object once, in creation order. */
  predicate Dense(d: Doc) {
    |d.pool| == |d.lines| && forall i :: 0 <= i < |d.lines| ==> d.lines[i] == i
  }

  function Append(d: Doc, l: ScriptLine): Doc {
    d.(pool := d.pool + [l], lines := d.lines + [|d.pool|])
  }

  /** A line without a command that is not a continuation. */
  lemma AppendOther(d: Doc, l: ScriptLine)
    requires WellFormed(d) && Dense(d)
    requires l.lineNumber == |d.lines| && l.command.None?
    requires l.kind in {LineType.None, Speaker, Section}
    ensures WellFormed(Append(d, l)) && Dense(Append(d, l))
  {
    var d' := Append(d, l);
    var n := |d.lines|;
    forall k | 0 <= k < |d'.commands| ensures CommandRefsOk(d', k) {
      assert CommandRefsOk(d, k);
    }
    forall s | 0 <= s < |d'.sections| ensures SectionRefsOk(d', s) {
      assert SectionRefsOk(d, s);
    }
    assert Sane(d');
    assert forall i :: 0 <= i < n ==> Line(d', i) == Line(d, i);
    forall i | 0 <= i < n + 1 ensures LineOk(d', i) {
      if i < n {
        assert LineOk(d, i);
      }
    }
    forall x | 0 <= x < |d'.commands| ensures CommandOk(d', x) {
      assert CommandOk(d, x);
      ExtendKeepsCommand(d, d', x);
    }
    forall s | 0 <= s < |d'.sections| ensures SectionOk(d', s) {
      assert SectionOk(d, s);
    }
  }

  /** A new section starts with no commands. */
  lemma AddSection(d: Doc, sec: ScriptSection)
    requires WellFormed(d) && sec.commands == []
    ensures WellFormed(d.(sections := d.sections + [sec]))
  {
    var d' := d.(sections := d.sections + [sec]);
    forall k | 0 <= k < |d'.commands| ensures CommandRefsOk(d', k) {
      assert CommandRefsOk(d, k);
    }
    forall s | 0 <= s < |d'.sections| ensures SectionRefsOk(d', s) {
      if s < |d.sections| {
        assert SectionRefsOk(d, s);
      }
    }
    assert Sane(d');
    assert forall i :: 0 <= i < |d.lines| ==> Line(d', i) == Line(d, i);
    forall i | 0 <= i < |d.lines| ensures LineOk(d', i) {
      assert LineOk(d, i);
    }
    forall x | 0 <= x < |d'.commands| ensures CommandOk(d', x) {
      assert CommandOk(d, x);
      ExtendKeepsCommand(d, d', x);
    }
    forall s | 0 <= s < |d'.sections| ensures SectionOk(d', s) {
      if s < |d.sections| {
        assert SectionOk(d, s);
      }
    }
  }

  /** The document after a command line: the line, the command in
      Commands and in its section's list. */
  function AppendCommand(d: Doc, l: ScriptLine, cmd: ScriptCommand): Doc
    requires cmd.section < |d.sections|
  {
    var d1 := AddToSection(d, cmd.section);
    Append(d1, l).(commands := d.commands + [cmd])
  }

  /** The speaker line a new dialogue command at position n refers to:
      the line just above, when that one is a speaker line. */
  function NameLineOf(d: Doc, n: nat): Option<nat>
    requires Sane(d) && n <= |d.lines|
  {
    if n > 0 && Kind(d, n - 1) == Speaker then Some(n - 1) else Option.None
  }

  lemma AppendCommandOk(d: Doc, l: ScriptLine, cmd: ScriptCommand)
    requires WellFormed(d) && Dense(d)
    requires cmd.section < |d.sections|
    requires cmd.commandIndex == |d.sections[cmd.section].commands|
    requires cmd.sourceLine == |d.pool|
    requires l == ScriptLine(if cmd.TextCommand? then Text else Command, l.text, |d.lines|, Some(|d.commands|))
    requires cmd.TextCommand? ==> cmd.continuationLines == []
    requires cmd.TextCommand? ==>
      cmd.nameLine == NameLineOf(d, |d.lines|)
    ensures WellFormed(AppendCommand(d, l, cmd)) && Dense(AppendCommand(d, l, cmd))
  {
    var d' := AppendCommand(d, l, cmd);
    var n := |d.lines|;
    var K := |d.commands|;
    AppendCommandSections(d, l, cmd);
    AppendCommandLines(d, l, cmd);
    assert forall x :: 0 <= x < K ==> d'.commands[x] == d.commands[x];
    assert forall i :: 0 <= i < n ==> Line(d', i) == Line(d, i);
    forall x | 0 <= x < K + 1 ensures CommandOk(d', x) {
      if x < K {
        assert CommandOk(d, x);
        ExtendKeepsCommand(d, d', x);
      } else {
        assert CommandRefsOk(d', K);
        assert cmd.TextCommand? ==> LayoutOk(d', K);
      }
    }
  }

  /** Every line keeps its number and its link to its command; the new
      line is the source line of the new command. */
  lemma AppendCommandLines(d: Doc, l: ScriptLine, cmd: ScriptCommand)
    requires Sane(d) && Dense(d) && forall i :: 0 <= i < |d.lines| ==> LineOk(d, i)
    requires cmd.section < |d.sections| && cmd.sourceLine == |d.pool|
    requires Sane(AppendCommand(d, l, cmd))
    requires l == ScriptLine(if cmd.TextCommand? then Text else Command, l.text, |d.lines|, Some(|d.commands|))
    ensures forall i :: 0 <= i < |d.lines| + 1 ==> LineOk(AppendCommand(d, l, cmd), i)
  {
    var d' := AppendCommand(d, l, cmd);
    var n := |d.lines|;
    assert forall x :: 0 <= x < |d.commands| ==> d'.commands[x] == d.commands[x];
    assert forall i :: 0 <= i < n ==> Line(d', i) == Line(d, i);
    forall i | 0 <= i < n + 1 ensures LineOk(d', i) {
      if i < n {
        assert LineOk(d, i);
      }
    }
  }

  /** The references of the new document stay in range. */
  lemma AppendCommandSane(d: Doc, l: ScriptLine, cmd: ScriptCommand)
    requires Sane(d) && cmd.section < |d.sections| && cmd.sourceLine == |d.pool|
    requires l.command == Some(|d.commands|)
    requires cmd.TextCommand? ==> cmd.continuationLines == []
    requires cmd.TextCommand? && cmd.nameLine.Some? ==> cmd.nameLine.value < |d.pool|
    ensures Sane(AppendCommand(d, l, cmd))
    ensures AppendCommand(d, l, cmd).sections[cmd.section].commands == d.sections[cmd.section].commands + [|d.commands|]
    ensures forall s :: 0 <= s < |d.sections| && s != cmd.section ==> AppendCommand(d, l, cmd).sections[s] == d.sections[s]
  {
    var d' := AppendCommand(d, l, cmd);
    var K := |d.commands|;
    var s0 := cmd.section;
    assert d'.sections[s0].commands == d.sections[s0].commands + [K];
    assert forall s :: 0 <= s < |d.sections| && s != s0 ==> d'.sections[s] == d.sections[s];
    assert forall x :: 0 <= x < K ==> d'.commands[x] == d.commands[x];
    forall k | 0 <= k < |d'.commands| ensures CommandRefsOk(d', k) {
      if k < K {
        assert CommandRefsOk(d, k);
      }
    }
    forall s | 0 <= s < |d'.sections| ensures SectionRefsOk(d', s) {
      assert SectionRefsOk(d, s);
    }
  }

  /** Every section still numbers its commands, the new one last in its
      own section. */
  lemma AppendCommandSections(d: Doc, l: ScriptLine, cmd: ScriptCommand)
    requires Sane(d) && cmd.section < |d.sections| && cmd.sourceLine == |d.pool|
    requires forall s :: 0 <= s < |d.sections| ==> SectionOk(d, s)
    requires cmd.commandIndex == |d.sections[cmd.section].commands|
    requires l.command == Some(|d.commands|)
    requires cmd.TextCommand? ==> cmd.continuationLines == []
    requires cmd.TextCommand? && cmd.nameLine.Some? ==> cmd.nameLine.value < |d.pool|
    ensures Sane(AppendCommand(d, l, cmd))
    ensures forall s :: 0 <= s < |d.sections| ==> SectionOk(AppendCommand(d, l, cmd), s)
  {
    AppendCommandSane(d, l, cmd);
    var d' := AppendCommand(d, l, cmd);
    var K := |d.commands|;
    var s0 := cmd.section;
    forall s | 0 <= s < |d'.sections| ensures SectionOk(d', s) {
      assert SectionOk(d, s);
      assert SectionRefsOk(d, s);
      if s == s0 {
        forall j | 0 <= j < |d'.sections[s].commands|
          ensures d'.commands[d'.sections[s].commands[j]].section == s
          ensures d'.commands[d'.sections[s].commands[j]].commandIndex == j
        {
          if j < |d.sections[s].commands| {
            var x := d.sections[s].commands[j];
            assert d'.sections[s].commands[j] == x && x < K;
            assert d'.commands[x] == d.commands[x];
          } else {
            assert d'.sections[s].commands[j] == K;
          }
        }
      } else {
        assert d'.sections[s] == d.sections[s];
      }
    }
  }

  /** The document after a continuation line of dialogue command k. */
  function AppendContinuation(d: Doc, l: ScriptLine, k: nat): Doc
    requires k < |d.commands| && d.commands[k].TextCommand?
  {
    var c := d.commands[k];
    Append(d, l).(commands := d.commands[k := c.(continuationLines := c.continuationLines + [|d.pool|])])
  }

  lemma AppendContinuationOk(d: Doc, l: ScriptLine, k: nat)
    requires WellFormed(d) && Dense(d) && |d.lines| > 0
    requires Kind(d, |d.lines| - 1) in {Text, TextContinuation}
    requires var j := PrevNonCont(d, |d.lines| - 1); j >= 0 && Line(d, j).command == Some(k)
    requires l == ScriptLine(TextContinuation, l.text, |d.lines|, Option.None)
    ensures k < |d.commands| && d.commands[k].TextCommand?
    ensures WellFormed(AppendContinuation(d, l, k)) && Dense(AppendContinuation(d, l, k))
  {
    OpenDialogue(d);
    var d' := AppendContinuation(d, l, k);
    ContinuationSane(d, l, k);
    ContinuationLinesOk(d, l, k);
    forall x | 0 <= x < |d'.commands| ensures CommandOk(d', x) {
      if x != k {
        ContinuationKeepsOther(d, l, k, x);
      } else {
        assert CommandOk(d, k);
        ContinuationExtendsOwn(d, l, k);
      }
    }
    ContinuationSectionsOk(d, l, k);
  }

  lemma ContinuationLinesOk(d: Doc, l: ScriptLine, k: nat)
    requires WellFormed(d) && Dense(d) && |d.lines| > 0
    requires Kind(d, |d.lines| - 1) in {Text, TextContinuation}
    requires k < |d.commands| && d.commands[k].TextCommand?
    requires l == ScriptLine(TextContinuation, l.text, |d.lines|, Option.None)
    requires Sane(AppendContinuation(d, l, k))
    ensures Dense(AppendContinuation(d, l, k))
    ensures var d' := AppendContinuation(d, l, k); forall i :: 0 <= i < |d'.lines| ==> LineOk(d', i)
  {
    var n := |d.lines|;
    var d' := AppendContinuation(d, l, k);
    assert forall i :: 0 <= i < n ==> Line(d', i) == Line(d, i);
    forall i | 0 <= i < n + 1 ensures LineOk(d', i) {
      if i < n {
        assert LineOk(d, i);
      } else {
        assert Kind(d', n - 1) == Kind(d, n - 1);
      }
    }
  }

  lemma ContinuationSectionsOk(d: Doc, l: ScriptLine, k: nat)
    requires WellFormed(d) && k < |d.commands| && d.commands[k].TextCommand?
    requires Sane(AppendContinuation(d, l, k))
    ensures var d' := AppendContinuation(d, l, k); forall s :: 0 <= s < |d'.sections| ==> SectionOk(d', s)
  {
    var d' := AppendContinuation(d, l, k);
    forall s | 0 <= s < |d'.sections| ensures SectionOk(d', s) {
      assert SectionOk(d, s);
      assert SectionRefsOk(d', s);
      assert SectionRefsOk(d, s);
    }
  }

  lemma ContinuationSane(d: Doc, l: ScriptLine, k: nat)
    requires Sane(d) && k < |d.commands| && d.commands[k].TextCommand? && l.command.None?
    ensures Sane(AppendContinuation(d, l, k))
  {
    var d' := AppendContinuation(d, l, k);
    assert d'.pool[|d.pool|] == l;
    assert forall id :: 0 <= id < |d.pool| ==> d'.pool[id] == d.pool[id];
    forall x | 0 <= x < |d'.commands| ensures CommandRefsOk(d', x) {
      assert CommandRefsOk(d, x);
    }
    forall s | 0 <= s < |d'.sections| ensures SectionRefsOk(d', s) {
      assert SectionRefsOk(d, s);
    }
  }

  /** Another dialogue run ends before the open one starts, so the new
      continuation does not touch it. */
  lemma ContinuationKeepsOther(d: Doc, l: ScriptLine, k: nat, x: nat)
    requires WellFormed(d) && Dense(d) && |d.lines| > 0
    requires Kind(d, |d.lines| - 1) in {Text, TextContinuation}
    requires var j := PrevNonCont(d, |d.lines| - 1); j >= 0 && Line(d, j).command == Some(k)
    requires l == ScriptLine(TextContinuation, l.text, |d.lines|, Option.None)
    requires k < |d.commands| && d.commands[k].TextCommand?
    requires x < |d.commands| && x != k
    ensures Sane(AppendContinuation(d, l, k)) && CommandOk(AppendContinuation(d, l, k), x)
  {
    var n := |d.lines|;
    OpenDialogue(d);
    var j := PrevNonCont(d, n - 1);
    var d' := AppendContinuation(d, l, k);
    ContinuationSane(d, l, k);
    assert CommandOk(d, x);
    assert CommandRefsOk(d, x);
    assert CommandOk(d, k);
    assert CommandRefsOk(d, k);
    if d.commands[x].TextCommand? {
      var q := Position(d, d.commands[x].sourceLine);
      assert Position(d, d.commands[k].sourceLine) == j;
      assert LineOk(d, q);
      assert Kind(d, q) == Text;
      assert q != j;
      RunsDisjoint(d, x, k);
    }
    assert forall i :: 0 <= i < n ==> d'.lines[i] == d.lines[i];
    ExtendKeepsCommand(d, d', x);
  }

  /** The open run grows by the new line. */
  lemma ContinuationExtendsOwn(d: Doc, l: ScriptLine, k: nat)
    requires Sane(d) && Dense(d) && |d.lines| > 0
    requires k < |d.commands| && d.commands[k].TextCommand? && CommandOk(d, k)
    requires Position(d, d.commands[k].sourceLine) + |d.commands[k].continuationLines| == |d.lines| - 1
    requires l == ScriptLine(TextContinuation, l.text, |d.lines|, Option.None)
    ensures Sane(AppendContinuation(d, l, k)) && CommandOk(AppendContinuation(d, l, k), k)
  {
    var n := |d.lines|;
    var d' := AppendContinuation(d, l, k);
    ContinuationSane(d, l, k);
    assert CommandRefsOk(d, k);
    assert CommandRefsOk(d', k);
    assert LayoutOk(d, k);
    var c, c' := d.commands[k], d'.commands[k];
    var p := Position(d, c.sourceLine);
    assert Position(d', c'.sourceLine) == p && OnPage(d', c'.sourceLine);
    assert c'.continuationLines == c.continuationLines + [n];
    assert forall i :: 0 <= i < n ==> Kind(d', i) == Kind(d, i) && d'.lines[i] == d.lines[i];
    assert Kind(d', n) == TextContinuation && d'.lines[n] == n;
    assert d'.sections == d.sections;
    assert LayoutOk(d', k);
  }

  // ---------------------------------------------------------------------
  // The four kinds of step

  lemma StepContinuation(input: seq<string>, load: Loader, n: nat, st: Parser)
    requires n < |input| && Inv(input, load, n, st)
    requires GetLineType(input[n]) == Text && n > 0 && ClassOf(input, n - 1) in {Text, TextContinuation}
    ensures StepOk(input, load, n, st)
  {
    var k := ContinuationTarget(input, load, n, st);
    ContinuationInv(input, load, n, st, k);
  }

  /** A continuation line goes to the dialogue command k that is open. */
  lemma ContinuationTarget(input: seq<string>, load: Loader, n: nat, st: Parser) returns (k: nat)
    requires n < |input| && Inv(input, load, n, st)
    requires GetLineType(input[n]) == Text && n > 0 && ClassOf(input, n - 1) in {Text, TextContinuation}
    ensures k < |st.doc.commands| && st.doc.commands[k].TextCommand?
    ensures var j := PrevNonCont(st.doc, n - 1); j >= 0 && Line(st.doc, j).command == Some(k)
    ensures var res := ParseLine(st, input[n], n, load);
      res.Ok? && Commit(res.value) ==
        st.(doc := AppendContinuation(st.doc, ScriptLine(TextContinuation, input[n], n, Option.None), k),
            lastLine := Some(n), lastLineType := TextContinuation)
  {
    var d := st.doc;
    assert WellFormed(d) && LinesMatch(input, n, d);
    assert |d.lines| == n && Kind(d, n - 1) == ClassOf(input, n - 1);
    OpenDialogue(d);
    var j := PrevNonCont(d, |d.lines| - 1);
    k := Line(d, j).command.value;
    ContinuationResult(input[n], n, load, st, j, k);
  }

  /** Adding the continuation line to command k keeps the invariant. */
  lemma ContinuationInv(input: seq<string>, load: Loader, n: nat, st: Parser, k: nat)
    requires n < |input| && Inv(input, load, n, st)
    requires GetLineType(input[n]) == Text && n > 0 && ClassOf(input, n - 1) in {Text, TextContinuation}
    requires k < |st.doc.commands| && st.doc.commands[k].TextCommand?
    requires var j := PrevNonCont(st.doc, n - 1); j >= 0 && Line(st.doc, j).command == Some(k)
    ensures LineError(input, load, n).None?
    ensures Inv(input, load, n + 1,
                st.(doc := AppendContinuation(st.doc, ScriptLine(TextContinuation, input[n], n, Option.None), k),
                    lastLine := Some(n), lastLineType := TextContinuation))
  {
    var d := st.doc;
    ContinuationParsed(input, load, n, d, k);
    PlainStep(input, n);
    assert ClassOf(input, n) == TextContinuation;
  }

  /** The continuation line extends the document it is parsed into. */
  lemma ContinuationParsed(input: seq<string>, load: Loader, n: nat, d: Doc, k: nat)
    requires n < |input| && n > 0 && PartParsed(input, load, n, d)
    requires GetLineType(input[n]) == Text && ClassOf(input, n - 1) in {Text, TextContinuation}
    requires var j := PrevNonCont(d, n - 1); j >= 0 && Line(d, j).command == Some(k)
    ensures k < |d.commands| && d.commands[k].TextCommand?
    ensures PartParsed(input, load, n + 1,
                       AppendContinuation(d, ScriptLine(TextContinuation, input[n], n, Option.None), k))
  {
    assert Kind(d, n - 1) == ClassOf(input, n - 1);
    var l := ScriptLine(TextContinuation, input[n], n, Option.None);
    AppendContinuationOk(d, l, k);
    var d' := AppendContinuation(d, l, k);
    assert ClassOf(input, n) == TextContinuation;
    PlainStep(input, n);
    assert |d.pool| == n && d'.pool == d.pool + [l] && d'.lines == d.lines + [n];
    LinesGrow(input, n, d, l, d');
    ContinuationPlacements(d, l, k);
    CommandsKept(input, n, d, d');
    assert d'.sections == d.sections;
    SectionsKept(input, load, n, d, d');
  }

  /** A continuation line extends the open dialogue command: the one whose
      source line j is the last dialogue line. */
  lemma ContinuationResult(lineText: string, n: nat, load: Loader, st: Parser, j: nat, k: nat)
    requires Sane(st.doc) && |st.doc.lines| == n && |st.doc.pool| == n
    requires st.currentSection.Some? ==> st.currentSection.value < |st.doc.sections|
    requires GetLineType(lineText) == Text && st.lastLineType in {Text, TextContinuation}
    requires j < n && Kind(st.doc, j) == Text && forall i :: j < i < n ==> Kind(st.doc, i) == TextContinuation
    requires Line(st.doc, j).command == Some(k) && k < |st.doc.commands| && st.doc.commands[k].TextCommand?
    ensures var res := ParseLine(st, lineText, n, load);
      res.Ok? && Commit(res.value) ==
        st.(doc := AppendContinuation(st.doc, ScriptLine(TextContinuation, lineText, n, Option.None), k),
            lastLine := Some(n), lastLineType := TextContinuation)
  {
    assert LastTextLine(st.doc, n - 1) == j;
  }

  lemma StepCommand(input: seq<string>, load: Loader, n: nat, st: Parser)
    requires n < |input| && Inv(input, load, n, st)
    requires GetLineType(input[n]) in {Text, Command}
    requires !(GetLineType(input[n]) == Text && n > 0 && ClassOf(input, n - 1) in {Text, TextContinuation})
    requires |st.doc.sections| > 0
    ensures StepOk(input, load, n, st)
  {
    CommandStepResult(input, load, n, st);
    CommandStepInv(input, load, n, st);
  }

  /** The new command of a command line at position n. */
  function NewCommand(d: Doc, commandIndex: nat, n: nat, isText: bool): ScriptCommand
    requires Sane(d) && n <= |d.lines| && |d.sections| > 0
  {
    if isText then TextCommand(|d.sections| - 1, commandIndex, n, NameLineOf(d, n), [])
    else PlainCommand(|d.sections| - 1, commandIndex, n)
  }

  /** The line object of a command line at position n. */
  function NewCommandLine(d: Doc, text: string, n: nat, isText: bool): ScriptLine {
    ScriptLine(if isText then Text else Command, text, n, Some(|d.commands|))
  }

  /** The driver state after command line n. */
  function AfterCommand(input: seq<string>, n: nat, st: Parser): Parser
    requires n < |input| && Sane(st.doc) && n <= |st.doc.lines| && |st.doc.sections| > 0
  {
    var isText := GetLineType(input[n]) == Text;
    var cmd := NewCommand(st.doc, st.commandIndex, n, isText);
    var l := NewCommandLine(st.doc, input[n], n, isText);
    st.(doc := AppendCommand(st.doc, l, cmd), lastLine := Some(n), lastLineType := l.kind,
        commandIndex := st.commandIndex + 1)
  }

  lemma CommandStepResult(input: seq<string>, load: Loader, n: nat, st: Parser)
    requires n < |input| && Inv(input, load, n, st)
    requires GetLineType(input[n]) in {Text, Command}
    requires !(GetLineType(input[n]) == Text && n > 0 && ClassOf(input, n - 1) in {Text, TextContinuation})
    requires |st.doc.sections| > 0
    ensures var res := ParseLine(st, input[n], n, load);
      res.Ok? && Commit(res.value) == AfterCommand(input, n, st)
  {
    var d := st.doc;
    var isText := GetLineType(input[n]) == Text;
    assert WellFormed(d) && LinesMatch(input, n, d);
    assert |d.lines| == n && |d.pool| == n;
    assert n > 0 ==> Kind(d, n - 1) == ClassOf(input, n - 1);
    CommandResult(input[n], n, load, st, NewCommandLine(d, input[n], n, isText), NewCommand(d, st.commandIndex, n, isText));
  }

  lemma CommandStepInv(input: seq<string>, load: Loader, n: nat, st: Parser)
    requires n < |input| && Inv(input, load, n, st)
    requires GetLineType(input[n]) in {Text, Command}
    requires !(GetLineType(input[n]) == Text && n > 0 && ClassOf(input, n - 1) in {Text, TextContinuation})
    requires |st.doc.sections| > 0
    ensures LineError(input, load, n).None?
    ensures Inv(input, load, n + 1, AfterCommand(input, n, st))
  {
    var d := st.doc;
    var isText := GetLineType(input[n]) == Text;
    var cmd := NewCommand(d, st.commandIndex, n, isText);
    var l := NewCommandLine(d, input[n], n, isText);
    assert PartParsed(input, load, n, d) && SectionsMatch(input, load, n, d) && LinesMatch(input, n, d);
    assert SectionsBefore(input, n) == |d.sections| && |d.lines| == n;
    assert ClassOf(input, n) == GetLineType(input[n]);
    assert LineError(input, load, n).None?;
    CommandParsed(input, load, n, d, l, cmd);
    CommandStep(input, n);
    var d' := AppendCommand(d, l, cmd);
    assert d'.sections[cmd.section].commands == d.sections[cmd.section].commands + [|d.commands|];
    assert NoErrorBefore(input, load, n + 1);
  }

  /** The command line extends the document it is parsed into. */
  lemma CommandParsed(input: seq<string>, load: Loader, n: nat, d: Doc, l: ScriptLine, cmd: ScriptCommand)
    requires n < |input| && PartParsed(input, load, n, d)
    requires ClassOf(input, n) == GetLineType(input[n]) && GetLineType(input[n]) in {Text, Command}
    requires |d.sections| > 0 && cmd.section == |d.sections| - 1
    requires cmd.commandIndex == IndexInSection(input, n) == |d.sections[cmd.section].commands|
    requires cmd.sourceLine == n
    requires cmd.TextCommand? <==> GetLineType(input[n]) == Text
    requires cmd.TextCommand? ==> cmd.continuationLines == []
    requires cmd.TextCommand? ==> cmd.nameLine == NameLineOf(d, n)
    requires l == ScriptLine(GetLineType(input[n]), input[n], n, Some(|d.commands|))
    ensures PartParsed(input, load, n + 1, AppendCommand(d, l, cmd))
  {
    AppendCommandOk(d, l, cmd);
    var d' := AppendCommand(d, l, cmd);
    CommandStep(input, n);
    LinesGrow(input, n, d, l, d');
    CommandsGrow(input, n, d, d', cmd);
    AddToSectionLoaded(d, cmd.section);
    assert d'.sections == AddToSection(d, cmd.section).sections;
    SectionsKept(input, load, n, d, d');
  }

  /** A command line opens a new command in the current section. */
  lemma CommandResult(lineText: string, n: nat, load: Loader, st: Parser, l: ScriptLine, cmd: ScriptCommand)
    requires Sane(st.doc) && |st.doc.lines| == n && |st.doc.pool| == n
    requires |st.doc.sections| > 0 && st.currentSection.Some? && st.currentSection.value == |st.doc.sections| - 1
    requires GetLineType(lineText) in {Text, Command}
    requires GetLineType(lineText) == Text ==> st.lastLineType !in {Text, TextContinuation}
    requires n == 0 ==> st.lastLineType == LineType.None
    requires n > 0 ==> st.lastLine.Some? && st.lastLine.value == n - 1 && st.lastLineType == Kind(st.doc, n - 1)
    requires var isText := GetLineType(lineText) == Text;
      && cmd == NewCommand(st.doc, st.commandIndex, n, isText)
      && l == NewCommandLine(st.doc, lineText, n, isText)
    ensures cmd.section < |st.doc.sections|
    ensures var res := ParseLine(st, lineText, n, load);
      res.Ok? && Commit(res.value) ==
        st.(doc := AppendCommand(st.doc, l, cmd), lastLine := Some(n), lastLineType := l.kind,
            commandIndex := st.commandIndex + 1)
  {
    var d := st.doc;
    var res := ParseLine(st, lineText, n, load);
    assert res.Ok?;
    assert res.value.command == Some(cmd);
    assert res.value.line == l;
    assert res.value.next.doc == AddToSection(d, |d.sections| - 1);
    assert Commit(res.value).doc == AppendCommand(d, l, cmd);
  }

  lemma StepSection(input: seq<string>, load: Loader, n: nat, st: Parser)
    requires n < |input| && Inv(input, load, n, st)
    requires GetLineType(input[n]) == Section && LoadSection(input[n], n, load).Ok?
    ensures StepOk(input, load, n, st)
  {
    var d := st.doc;
    assert PartParsed(input, load, n, d) && LinesMatch(input, n, d);
    var sec := LoadSection(input[n], n, load).value;
    SectionResult(input[n], n, load, st);
    SectionParsed(input, load, n, d, sec);
    assert ClassOf(input, n) == Section;
    SectionStep(input, n);
  }

  /** ParseLine on a header that loads opens a new, empty section. */
  lemma SectionResult(lineText: string, n: nat, load: Loader, st: Parser)
    requires Sane(st.doc)
    requires st.currentSection.Some? ==> st.currentSection.value < |st.doc.sections|
    requires GetLineType(lineText) == Section && LoadSection(lineText, n, load).Ok?
    ensures var res := ParseLine(st, lineText, n, load);
      var d := st.doc;
      var sec := LoadSection(lineText, n, load).value;
      res.Ok? && Commit(res.value) ==
        st.(doc := Append(d.(sections := d.sections + [sec]), ScriptLine(Section, lineText, n, Option.None)),
            lastLine := Some(|d.pool|), lastLineType := Section, currentSection := Some(|d.sections|), commandIndex := 0)
  {
  }

  /** The header line and its section extend the document it is parsed
      into. */
  lemma SectionParsed(input: seq<string>, load: Loader, n: nat, d: Doc, sec: ScriptSection)
    requires n < |input| && PartParsed(input, load, n, d)
    requires GetLineType(input[n]) == Section && LoadSection(input[n], n, load) == Ok(sec)
    ensures |d.pool| == n
    ensures PartParsed(input, load, n + 1, Append(d.(sections := d.sections + [sec]), ScriptLine(Section, input[n], n, Option.None)))
  {
    assert LinesMatch(input, n, d);
    var l := ScriptLine(Section, input[n], n, Option.None);
    var d1 := d.(sections := d.sections + [sec]);
    AddSection(d, sec);
    AppendOther(d1, l);
    var d' := Append(d1, l);
    assert ClassOf(input, n) == Section;
    SectionStep(input, n);
    LinesGrow(input, n, d, l, d');
    assert d'.commands == d.commands;
    CommandsKept(input, n, d, d');
    SectionsGrow(input, load, n, d, d', sec);
  }

  lemma StepOther(input: seq<string>, load: Loader, n: nat, st: Parser)
    requires n < |input| && Inv(input, load, n, st)
    requires GetLineType(input[n]) in {LineType.None, Speaker}
    ensures StepOk(input, load, n, st)
  {
    var d := st.doc;
    var l := ScriptLine(GetLineType(input[n]), input[n], n, Option.None);
    AppendOther(d, l);
    var d' := Append(d, l);
    var res := ParseLine(st, input[n], n, load);
    assert res.Ok? && Commit(res.value) == st.(doc := d', lastLine := Some(n), lastLineType := l.kind);
    assert ClassOf(input, n) == GetLineType(input[n]);
    PlainStep(input, n);
    LinesGrow(input, n, d, l, d');
    assert d'.commands == d.commands && d'.sections == d.sections;
    CommandsKept(input, n, d, d');
    SectionsKept(input, load, n, d, d');
  }

  lemma StepNoSection(input: seq<string>, load: Loader, n: nat, st: Parser)
    requires n < |input| && Inv(input, load, n, st)
    requires GetLineType(input[n]) in {Text, Command}
    requires !(GetLineType(input[n]) == Text && n > 0 && ClassOf(input, n - 1) in {Text, TextContinuation})
    requires |st.doc.sections| == 0
    ensures StepOk(input, load, n, st)
  {
    assert ClassOf(input, n) == GetLineType(input[n]);
    assert ParseLine(st, input[n], n, load) == Err(CommandBeforeSection(n));
  }

  lemma StepBadSection(input: seq<string>, load: Loader, n: nat, st: Parser)
    requires n < |input| && Inv(input, load, n, st)
    requires GetLineType(input[n]) == Section && LoadSection(input[n], n, load).Err?
    ensures StepOk(input, load, n, st)
  {
    assert ClassOf(input, n) == Section;
    assert ParseLine(st, input[n], n, load) == Err(LoadSection(input[n], n, load).error);
  }

  // ---------------------------------------------------------------------
  // Each part of the match grows with the line

  /** Appending the n-th input line with its kind extends the line match. */
  lemma LinesGrow(input: seq<string>, n: nat, d: Doc, l: ScriptLine, d': Doc)
    requires n < |input| && LinesMatch(input, n, d)
    requires l.text == input[n] && l.kind == ClassOf(input, n)
    requires d'.pool == d.pool + [l] && d'.lines == d.lines + [n]
    ensures LinesMatch(input, n + 1, d')
  {
    forall i | 0 <= i < n + 1
      ensures d'.lines[i] == i && d'.pool[i].text == input[i] && d'.pool[i].kind == ClassOf(input, i)
    {
      if i < n {
        assert d'.lines[i] == d.lines[i] && d'.pool[i] == d.pool[i];
      }
    }
  }

  /** Where each command sits: its source line, section and index. */
  function Placements(cs: seq<ScriptCommand>): seq<(nat, nat, nat)> {
    seq(|cs|, i requires 0 <= i < |cs| => (cs[i].sourceLine, cs[i].section, cs[i].commandIndex))
  }

  /** A line that is not a command line keeps the commands placed, as long
      as they keep their section, index and source line. */
  lemma CommandsKept(input: seq<string>, n: nat, d: Doc, d': Doc)
    requires n < |input| && CommandsMatch(input, n, d) && !IsCommandLine(input, n)
    requires Placements(d'.commands) == Placements(d.commands)
    ensures CommandsMatch(input, n + 1, d')
  {
    assert |d'.commands| == |Placements(d'.commands)|;
    forall x | 0 <= x < |d'.commands| ensures CommandPlaced(input, d', x) {
      assert CommandPlaced(input, d, x);
      assert Placements(d'.commands)[x] == Placements(d.commands)[x];
    }
  }

  /** A continuation changes no command's place. */
  lemma ContinuationPlacements(d: Doc, l: ScriptLine, k: nat)
    requires k < |d.commands| && d.commands[k].TextCommand?
    ensures Placements(AppendContinuation(d, l, k).commands) == Placements(d.commands)
  {
  }

  /** A command line adds the command it is the source of. */
  lemma CommandsGrow(input: seq<string>, n: nat, d: Doc, d': Doc, cmd: ScriptCommand)
    requires n < |input| && CommandsMatch(input, n, d) && IsCommandLine(input, n)
    requires d'.commands == d.commands + [cmd]
    requires cmd.sourceLine == n && cmd.section + 1 == SectionsBefore(input, n)
    requires cmd.commandIndex == IndexInSection(input, n)
    ensures CommandsMatch(input, n + 1, d')
  {
    forall x | 0 <= x < |d'.commands| ensures CommandPlaced(input, d', x) {
      if x < |d.commands| {
        assert CommandPlaced(input, d, x);
      }
    }
  }

  /** The sections without their command lists: what was loaded. */
  function Loaded(ss: seq<ScriptSection>): seq<ScriptSection> {
    seq(|ss|, i requires 0 <= i < |ss| => ss[i].(commands := []))
  }

  /** A line that is not a header keeps the sections loaded, as long as
      they keep their path and records. */
  lemma SectionsKept(input: seq<string>, load: Loader, n: nat, d: Doc, d': Doc)
    requires n < |input| && SectionsMatch(input, load, n, d) && ClassOf(input, n) != Section
    requires |d.pool| <= |d'.pool| && Loaded(d'.sections) == Loaded(d.sections)
    ensures SectionsMatch(input, load, n + 1, d')
  {
    assert |d'.sections| == |Loaded(d'.sections)|;
    forall s | 0 <= s < |d'.sections| ensures SectionLoaded(input, load, d', s) {
      assert SectionLoaded(input, load, d, s);
      assert Loaded(d'.sections)[s] == Loaded(d.sections)[s];
      var i :| 0 <= i < |d.pool| && i < |input| && ClassOf(input, i) == Section && SectionsBefore(input, i) == s
               && LoadSection(input[i], i, load) == Ok(d.sections[s].(commands := []));
      assert 0 <= i < |d'.pool|;
    }
  }

  /** Registering a command with its section changes nothing that was
      loaded. */
  lemma AddToSectionLoaded(d: Doc, s: nat)
    requires s < |d.sections|
    ensures Loaded(AddToSection(d, s).sections) == Loaded(d.sections)
  {
  }

  /** A header line adds the section it loads. */
  lemma SectionsGrow(input: seq<string>, load: Loader, n: nat, d: Doc, d': Doc, sec: ScriptSection)
    requires n < |input| && SectionsMatch(input, load, n, d) && ClassOf(input, n) == Section
    requires LoadSection(input[n], n, load) == Ok(sec)
    requires |d.pool| <= n < |d'.pool| && d'.sections == d.sections + [sec]
    ensures SectionsMatch(input, load, n + 1, d')
  {
    forall s | 0 <= s < |d'.sections| ensures SectionLoaded(input, load, d', s) {
      if s < |d.sections| {
        assert SectionLoaded(input, load, d, s);
        var i :| 0 <= i < |d.pool| && i < |input| && ClassOf(input, i) == Section && SectionsBefore(input, i) == s
                 && LoadSection(input[i], i, load) == Ok(d.sections[s].(commands := []));
        assert d'.sections[s] == d.sections[s];
        assert 0 <= i < |d'.pool|;
      } else {
        assert sec.(commands := []) == sec;
        assert 0 <= n < |d'.pool| && ClassOf(input, n) == Section && SectionsBefore(input, n) == s;
      }
    }
  }
}
