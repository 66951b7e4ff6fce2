# TenkiConv script model

TenkiConv converts the dialogue scripts of a visual novel into translation
spreadsheets and back. A script has three kinds of content:

- **Section headers** (`***SS_…_` / `***SC_…_`). Each opens a scene and names its `.spt` record file.
- **Commands.**
- **Dialogue.** A dialogue line may have a speaker line above it. It may have continuation lines below it.

Conversion has two directions:

- **Externalize** replaces every dialogue with an `@L<n>` key and `@--` placeholders. It replaces every speaker name with an `@N<id>` key. The original texts go into three id-keyed tables.
- **Internalize** goes back. It reads each key and writes the translated text in its place. A dialogue can grow or shrink, and every later line moves with it. It then updates each dialogue record's line count (Field14) and first-line position (Field10).

This project models the core of `Script` as Dafny and proves its contracts:

- the classifier's priority table;
- the one-pass parser;
- the validator;
- the re-layout of `ChangeText`;
- Externalize, Internalize and UpdateLineNumbers;
- the record layout of a scene file.

## Modules

| file | module | what it holds |
|---|---|---|
| `wrappers.dfy` | `Wrappers` | `Option`, `Result` and `Outcome`. |
| `strings.dfy` | `Strings` | The .NET string functions the converter calls, over `seq<char>`: white space, `StartsWith`, `Contains`, `TrimStart`, `int.Parse`, decimal formatting, and the `'\n'` join/split. |
| `patterns.dfy` | `Patterns` | Hand-written matchers for `SectionPattern` and `NamePattern`. Each is proved equal to a declarative statement of what the regular expression accepts. |
| `classifier.dfy` | `Classifier` | `LineType` and `GetLineType`. |
| `records.dfy` | `Records` | `SptEntry` and the count-prefixed 8-field record stream that `ScriptSection` reads and `Save` writes. |
| `document.dfy` | `Document` | The object graph. |
| `parser.dfy` | `Parser` | `ParseCode`: the `ParseLine` closure as a function and the driver loop as a method. |
| `relayout.dfy` | `Relayout` | The list step of `ChangeText`. |
| `changetext.dfy` | `TextChange` | `ChangeText` as a function on documents, and its properties. |
| `tables.dfy` | `Tables` | The three tables, `CoalesceStrings`, and the ownership of lines by commands. |
| `externalize.dfy` | `Externalizing` | `Externalize` as a fold over the commands, and its specification `Externalized`. |
| `internalize.dfy` | `Internalizing` | `Internalize` and `UpdateLineNumbers`. |
| `roundtrip.dfy` | `RoundTrip` | Externalize followed by Internalize. |
| `internalize_effect.dfy` | `InternalizeEffect` | What Internalize does with any three tables: when it succeeds, where it fails, and the script it leaves. |
| `script.dfy` | `Scripts` | The `Script` class, whose fields the operations update in place with loops. Each method is proved equal to the function its `ensures` names. |

### The object graph

`ScriptLine`, `ScriptCommand` and `ScriptSection` are C# objects that refer to each other. The model writes every such reference as an index:

- `pool` holds every line object ever created. A line's identity is its index there.
- `lines` is the `Lines` list, as identities.
- A command is identified by its index in `Commands`.
- A section is identified by its index in `Sections`.

`Document.WellFormed` is the structural invariant that the parser establishes and the editing operations keep:

- every line's LineNumber is its position;
- command lines and their commands point at each other;
- each section lists its commands at their CommandIndex;
- a dialogue command's continuations are the lines right below it;
- its speaker line is the speaker line right above it, if there is one.

`Document.ValidateSpec` states what `Validate` checks.

### Failures

The model assumes a Debug build, in which the `Debug.Assert`s are compiled in and the run aborts on the first one that fails. Exceptions (an index out of range, a missing dictionary key, `int.Parse`) also end the run. The model returns these as error values with the offending line or command:

- `ParseError` for the parser;
- `ExtError` for Externalize;
- `IntError` for Internalize;
- a `false` result for `Validate`.

Two of these assertions are proved never to fire:

- the parser's `textCommand != null` check (`Program.cs:125`), which `Parser.ParseCode`'s error contract rules out;
- `ChangeText`'s check that the continuations follow the source line (`Program.cs:256-258`), which holds on every well-formed document.

## Model

| member | source | states |
|---|---|---|
| Strings.IsNullOrWhiteSpace | TenkiConv/Program.cs:471 | True exactly when every character of the line is white space. |
| Strings.TrimStart | TenkiConv/Program.cs:471 | The result is a suffix of the line, everything removed is white space, and the result is empty or starts with a non-white-space character. |
| Strings.Contains | TenkiConv/Program.cs:474 | True exactly when the substring occurs at some position of the line. |
| Strings.ParseInt32 | TenkiConv/Program.cs:234 | A parsed value lies within the int32 range. Like `int.Parse`, it accepts white space around the number and NUL characters at the very end; on anything else it cannot parse, or that overflows, `int.Parse` throws, which is None here. |
| Strings.ParseTrailingNuls | TenkiConv/Program.cs:234 | `"1\0"` and `"1 \0\0"` parse to 1, and `"1\0 "` does not parse. |
| Strings.ParseInt32OfNatToString | TenkiConv/Program.cs:189 | Parsing the decimal text of any n up to Int32Max gives back n, so the id written into a key is the id read back from it. |
| Strings.SplitJoin | TenkiConv/Program.cs:193 | Splitting at `'\n'` a join of lines that hold no newline gives back those lines. |
| Strings.JoinSplit | TenkiConv/Program.cs:234 | Joining the pieces of a split with `'\n'` gives back the text. |
| Strings.ReplaceEscapesNoEscape | TenkiConv/Program.cs:234 | `Replace("\\n", "\n")` leaves a text with no backslash-n unchanged. |
| Strings.JoinNoEscape | TenkiConv/Program.cs:193 | Joining lines without newlines or backslash-n with `'\n'` creates no backslash-n. |
| Patterns.FindName | TenkiConv/Program.cs:104 | The lazy `.*?` search finds the shortest name length from k on at which NamePattern matches; None means no length from k on matches. |
| Patterns.MatchName | TenkiConv/Program.cs:104 | The name group is a prefix of the line and the shortest name the pattern accepts; None exactly when the pattern does not match. |
| Patterns.TailAfterRun | TenkiConv/Program.cs:104 | The id tag can follow only the maximal white-space run, so the greedy `\s*` never backtracks. |
| Patterns.SectionName | TenkiConv/Program.cs:103 | Some exactly when SectionPattern matches; its value is the `sectionName` group of a match. |
| Patterns.SectionMatchUsesRuns | TenkiConv/Program.cs:103 | Every match of SectionPattern uses the maximal digit runs. |
| Classifier.GetLineType | TenkiConv/Program.cs:467-481 | The classifier never answers TextContinuation; only the parser makes continuations. |
| Classifier.GetLineTypeRules | TenkiConv/Program.cs:467-481 | Each kind is chosen exactly when its rule holds and no earlier rule does: `***` prefix, then blank or `//` comment, then `_` or `//`, then `@N` or NamePattern, then dialogue. |
| Classifier.RulesAgree | TenkiConv/Program.cs:468-477 | Each library test in GetLineType is equivalent to its declarative rule. |
| Records.EncodeEntries | TenkiConv/Program.cs:574-588 | Save writes the count and then 8 values per record. |
| Records.DecodeEntries | TenkiConv/Program.cs:554-572 | Reading succeeds exactly when the stream has a non-negative count and at least 8 values per counted record; the result has that many records. |
| Records.DecodeEncode | TenkiConv/Program.cs:554-588 | Reading back what Save wrote gives the same records. |
| Records.EncodeDecode | TenkiConv/Program.cs:554-588 | Saving what was read writes the same count and records: the values Save writes are the start of the stream it read. |
| Records.SaveOver | TenkiConv/Program.cs:574-588 | Save writes over the start of the file without truncating it: the stream that results reads back as the saved records, and the old values beyond the written ones stay. |
| Records.SaveAfterRead | TenkiConv/Program.cs:554-588 | Saving what was read leaves the stored stream unchanged, including any values after the last record. |
| Document.LinesDistinct | TenkiConv/Program.cs:591-606 | In a well-formed document two positions of `Lines` hold the same line object only if they are equal. |
| Document.PrevNonCont | TenkiConv/Program.cs:330-331 | Validate's backward scan stops at the nearest line that is not a continuation, or at -1. |
| Document.ContinuationFound | TenkiConv/Program.cs:328-334 | In a well-formed document every continuation passes Validate's checks: it belongs to the dialogue command above its run, at its index. |
| Document.ValidateWellFormed | TenkiConv/Program.cs:317-356 | On a well-formed document Validate fails exactly when a speaker line is not followed by dialogue or a section's command count differs from its record count. |
| Document.RunsDisjoint | TenkiConv/Program.cs:622-631 | The continuation run of an earlier dialogue command ends before the source line of a later one. |
| Document.Skeleton | TenkiConv/Program.cs:265-292 | The skeleton of a list of lines holds only lines of the list that are not continuations, and every such line. |
| Document.SkeletonSplice | TenkiConv/Program.cs:265-292 | Replacing a run of continuations by another run keeps the skeleton when the other line objects keep their kinds. |
| Document.SameShapeWellFormed | TenkiConv/Program.cs:591-631 | Rewriting line texts and records keeps a document well formed, with the same kinds. |
| Document.SameShapeValidate | TenkiConv/Program.cs:317-356 | Rewriting texts and records while keeping the record counts does not change Validate's verdict. |
| Parser.LoadSection | TenkiConv/Program.cs:148-155 | A newly opened section has no commands yet. |
| Parser.LastTextLine | TenkiConv/Program.cs:124 | `lines.Last(Type == Text)`: the last dialogue source line at or before the position, or -1. |
| Parser.StepContinuation | TenkiConv/Program.cs:123-129 | Dialogue after dialogue becomes a continuation appended to the open dialogue command; the parse invariant is kept. |
| Parser.StepCommand | TenkiConv/Program.cs:131-146 | A command or a new dialogue gets the next index in the current section, and the speaker line above as NameLine when there is one; the invariant is kept. |
| Parser.StepNoSection | TenkiConv/Program.cs:131-142 | A command or dialogue before the first header stops the parse with CommandBeforeSection. |
| Parser.StepSection | TenkiConv/Program.cs:148-155 | A header opens a new section, loads its records and resets the command index to 0; the invariant is kept. |
| Parser.StepBadSection | TenkiConv/Program.cs:149-151 | A header that does not match, or whose record file is missing or short, stops the parse with that error. |
| Parser.StepOther | TenkiConv/Program.cs:157-160 | Blank, comment and speaker lines are added as they are; the invariant is kept. |
| Parser.StepCorrect | TenkiConv/Program.cs:118-170 | Each ParseLine step fails exactly with the error of that line, and otherwise keeps the parse invariant for one more line. |
| Parser.ParseCode | TenkiConv/Program.cs:106-174 | Succeeds exactly when no line stops the parse. Otherwise it returns the error of the first such line. On success the document is well formed and matches the input: line i is input line i with LineNumber i and the parser's kind, command k comes from the k-th command line and is numbered within its section, and section s is the one the s-th header loaded. |
| Relayout.IndexOf | TenkiConv/Program.cs:255 | `Lines.IndexOf`: the first position holding the line object, or -1 when none does. |
| Relayout.IndexOfSource | TenkiConv/Program.cs:255 | In a well-formed document IndexOf finds a command's source line at the position its LineNumber records. |
| Relayout.RelayoutWellFormed | TenkiConv/Program.cs:265-292 | For any positive line count the re-laid-out document is well formed. The command has one continuation fewer than the count. Old line objects change only their LineNumber. The layout moves as `Reshaped` says. |
| Relayout.RelayoutConts | TenkiConv/Program.cs:269-286 | The continuations after the re-layout are old ones or newly created line objects. |
| TextChange.ChangeTextWellFormed | TenkiConv/Program.cs:254-304 | ChangeText keeps the document well formed, so LineNumber stays equal to position everywhere. |
| TextChange.ChangeTextLines | TenkiConv/Program.cs:265-297 | `Lines` grows or shrinks by the difference in line count. The lines before the command are unchanged. The command's lines hold `text[0]` and then `text[1..]` as continuations. |
| TextChange.ChangeTextAfter | TenkiConv/Program.cs:273-275 | Every line after the old run is the same object, moved by the difference in line count, with only its LineNumber changed. |
| TextChange.ChangeTextTexts | TenkiConv/Program.cs:294-297 | The texts of `Lines` are the old ones with the command's lines replaced by `text`; the kinds likewise, with `|text|-1` continuations. |
| TextChange.ChangeTextCommands | TenkiConv/Program.cs:269-286 | The command's continuations become the `|text|-1` lines after its source line; every other command is unchanged. |
| TextChange.ChangeTextRecords | TenkiConv/Program.cs:299-303 | Only the command's own record changes, and in it only Field14, which becomes the new line count. |
| TextChange.ChangeTextSameCount | TenkiConv/Program.cs:265-297 | With an unchanged line count ChangeText moves no line and only writes texts and Field14. |
| TextChange.ChangeTextPool | TenkiConv/Program.cs:265-297 | Old line objects keep their kind and command. Only the source line and the new continuations change their text. |
| TextChange.ChangeTextConts | TenkiConv/Program.cs:269-286 | The new continuations are old continuations of the command or newly created line objects. |
| TextChange.ChangeTextSkeleton | TenkiConv/Program.cs:265-292 | ChangeText adds and removes continuations only: the lines that are not continuations stay in the same order. |
| Tables.CoalesceStrings | TenkiConv/Program.cs:393-399 | A non-empty result is one of the values. |
| Tables.CoalesceFirst | TenkiConv/Program.cs:393-399 | The result is the first value that is neither null nor empty, and "" exactly when there is none. |
| Tables.TextCountMonotone | TenkiConv/Program.cs:183-219 | Dialogue commands get strictly increasing ids in command order, so no two share one. |
| Tables.OwnedLine | TenkiConv/Program.cs:622-631 | The lines a command owns are its source line, its continuations inside its run, and the speaker line right above. |
| Externalizing.BlankFromEffect | TenkiConv/Program.cs:192-195 | The continuation loop blanks exactly the continuation lines and appends each old text after a `'\n'`. |
| Externalizing.NameStep | TenkiConv/Program.cs:204-213 | A known name keeps its id and changes nothing. A new name gets the next id, recorded in both directions. |
| Externalizing.SpeakerName | TenkiConv/Program.cs:200-202 | The name is a prefix of the speaker line, namely NamePattern's name group. |
| Externalizing.ExternalizeTextEffect | TenkiConv/Program.cs:187-197 | The dialogue half of a turn fails exactly when the dialogue starts with '@'. Otherwise the source line gets `@L<n>`, every continuation `@--`, and `Translations[n]` the joined dialogue. |
| Externalizing.ExternalizeNameEffect | TenkiConv/Program.cs:199-216 | Without a speaker line nothing happens. Otherwise the turn fails exactly when NamePattern does not match or the name starts with '@'. On success the name is replaced by its key and recorded in Speakers. |
| Externalizing.StepEffect | TenkiConv/Program.cs:187-220 | A turn succeeds exactly when the command passes the assertions, and then externalizes it with the next dialogue id. |
| Externalizing.Externalize | TenkiConv/Program.cs:176-221 | When a table exists nothing changes. Otherwise a success leaves the lines and commands in place and sets the tables. |
| Externalizing.FirstSpeaker | TenkiConv/Program.cs:205-211 | The first dialogue command from j on whose speaker line carries the name, or the command count when there is none; no command between j and it carries the name. |
| Externalizing.ExternalizeSpec | TenkiConv/Program.cs:176-221 | With no tables, Externalize succeeds exactly when no dialogue starts with '@' and every speaker line has a name that does not start with '@'. The result is well formed. Dialogue ids are 1..N in command order. Each dialogue line reads `@L<n>` with its continuations `@--`, and `Translations[n]` is the joined original. Equal names share one dense id, and each has an entry in Speakers and Names. Every name in Names is the name on some speaker line, and the ids follow the order in which the names first appear. Lines no dialogue owns are untouched. |
| Externalizing.ExternalizeTwice | TenkiConv/Program.cs:414-416 | A second Externalize, as WriteToCsv makes, changes nothing. |
| Internalizing.TranslationLines | TenkiConv/Program.cs:234 | A translation always gives at least one line, so ChangeText's `newLineCount > 0` assertion holds. |
| Internalizing.InternalizeText | TenkiConv/Program.cs:226-235 | A successful turn keeps the document well formed and the command a dialogue command with the same speaker line. |
| Internalizing.InternalizeName | TenkiConv/Program.cs:237-244 | A successful speaker turn rewrites texts only. |
| Internalizing.InternalizeFrom | TenkiConv/Program.cs:226-245 | The loop keeps the document well formed and the command list the same length. |
| Internalizing.Internalize | TenkiConv/Program.cs:223-252 | Nothing happens when a table is null. A success leaves a well-formed document and, when all three tables exist, drops them. Its full effect for any tables is `InternalizeEffect.InternalizeSpec`. |
| Internalizing.UpdateLineNumbersSpec | TenkiConv/Program.cs:306-315 | Fails exactly when a dialogue command has no record. Otherwise each dialogue record's Field10 becomes its anchor position and nothing else changes. |
| Internalizing.AnchorPosition | TenkiConv/Program.cs:308-313 | The anchor is the speaker line right above the source line, when there is one; otherwise it is the source line. |
| Internalizing.InternalizeTwice | TenkiConv/Program.cs:405-407 | A second Internalize, as WriteToTxt makes, changes nothing. |
| InternalizeEffect.TurnText | TenkiConv/Program.cs:227-235 | With the loop invariant, the dialogue half of turn k succeeds exactly when, on the original script, the source line holds `@L<n>` with n an int32 that has a translation, every continuation reads `@--`, and the command has a record. A failure names command k. A success is ChangeText with the translation's lines. |
| InternalizeEffect.TurnName | TenkiConv/Program.cs:237-244 | With the speaker line still holding its original text, the speaker half of turn k succeeds exactly when NamePattern matches it, the name starts with `@N` followed by an int32 and Names has that id. A failure names command k. A success replaces the key by the name and keeps the rest of the line. |
| InternalizeEffect.TurnFrame | TenkiConv/Program.cs:254-304 | A turn writes only line objects that command k owns when it ends: every other line object keeps its text. |
| InternalizeEffect.TurnKeeps | TenkiConv/Program.cs:226-245 | A dialogue turn succeeds exactly when the command passes its checks on the original script. A failure names the command. A success keeps the loop invariant for one more command. |
| InternalizeEffect.SkipKeeps | TenkiConv/Program.cs:226 | A command that is not dialogue is skipped and keeps the loop invariant. |
| InternalizeEffect.InternalizeFromSpec | TenkiConv/Program.cs:226-245 | The loop from command k on succeeds exactly when every remaining dialogue command passes its checks. A failure is at the first one that does not. A success ends in the loop invariant for all commands. |
| InternalizeEffect.IntEndRecords | TenkiConv/Program.cs:299-315 | After the loop and UpdateLineNumbers every record is remade: a dialogue record holds the new line count in Field14 and its first line's position in Field10, and the other records are unchanged. |
| InternalizeEffect.IntEnd | TenkiConv/Program.cs:247-251 | When every dialogue command passed its checks, UpdateLineNumbers after the loop succeeds and leaves the script internalized. |
| InternalizeEffect.InternalizeSpec | TenkiConv/Program.cs:223-252 | For all three tables, not only those Externalize made. Internalize succeeds exactly when every dialogue command passes its checks on the original script. A failure names the first dialogue command that does not. A success drops the tables and leaves a well-formed script in which each dialogue reads its translation's lines and each speaker line the name behind its key, every line no dialogue owns keeps its text, the lines that are not continuations keep their order, and each dialogue record holds the new line count and first-line position. |
| RoundTrip.TranslationOfJoin | TenkiConv/Program.cs:193-197 | Lines with no newline and no backslash-n, once joined into a translation and taken back apart by Internalize, are the same lines. |
| RoundTrip.KeyMatch | TenkiConv/Program.cs:216 | After a speaker name is replaced by its key, NamePattern finds the key as the name, so Internalize sees what Externalize wrote. |
| RoundTrip.RoundText | TenkiConv/Program.cs:226-235 | During the round trip, the dialogue half of Internalize writes back exactly the original dialogue lines. |
| RoundTrip.RoundName | TenkiConv/Program.cs:237-244 | During the round trip, the speaker half of Internalize writes back exactly the original speaker line. |
| RoundTrip.DialoguePlain | TenkiConv/Program.cs:188-194 | A script whose lines are all plain has plain dialogue lines, so it meets the round trip's requirement. |
| RoundTrip.ExternalizeInternalize | TenkiConv/Program.cs:176-252 | On a well-formed script that Externalize accepts, with plain dialogue lines and a record per dialogue command, both passes succeed. The result is the original script with only each dialogue record's Field14 and Field10 recomputed. |
| RoundTrip.RemadeCurrent | TenkiConv/Program.cs:299-315 | Records that already hold the line count and anchor are left as they are. |
| RoundTrip.ExternalizeInternalizeIdentity | TenkiConv/Program.cs:176-252 | On such a script whose records are current, the round trip gives back exactly the script it started from. |
| Scripts.Script.constructor | TenkiConv/Program.cs:97-101 | The new script holds the given lists and no tables. |
| Scripts.Script.Validate | TenkiConv/Program.cs:317-356 | Returns true exactly when every assertion of Validate holds and no index is out of range. |
| Scripts.Script.CheckLine | TenkiConv/Program.cs:318-336 | The checks of one line: its command points back, a speaker line is followed by dialogue, and a continuation belongs to the dialogue above its run. |
| Scripts.Script.UpdateLineNumbers | TenkiConv/Program.cs:306-315 | The loop leaves exactly the state `Internalizing.UpdateLineNumbers` describes, or stops with its error. |
| Scripts.Script.IndexOfLine | TenkiConv/Program.cs:255 | The loop returns `Relayout.IndexOf` of the line. |
| Scripts.Script.ShiftLines | TenkiConv/Program.cs:273-275 | The loop moves the LineNumber of every line from the position on by delta, as `ShiftFrom` says; nothing else changes. |
| Scripts.Script.AddFreshLines | TenkiConv/Program.cs:281-284 | The new line objects are `FreshLines`, appended to the pool. |
| Scripts.Script.WriteLines | TenkiConv/Program.cs:294-297 | The loop writes `text` into the source line and the continuations in order. |
| Scripts.Script.RemoveLines | TenkiConv/Program.cs:265-276 | The shrinking branch leaves the layout `Relayout.Relayout` describes. |
| Scripts.Script.InsertLines | TenkiConv/Program.cs:277-292 | The growing branch leaves the layout `Relayout.Relayout` describes. |
| Scripts.Script.ChangeText | TenkiConv/Program.cs:254-304 | The in-place operation leaves the document `TextChange.ChangeText` describes; the tables are untouched. |
| Scripts.Script.ExternalizeDialogue | TenkiConv/Program.cs:187-197 | Fails exactly as, and otherwise leaves the state that, `ExternalizeText` describes. |
| Scripts.Script.ExternalizeSpeaker | TenkiConv/Program.cs:199-216 | Fails exactly as, and otherwise leaves the state and tables that, `ExternalizeName` describes. |
| Scripts.Script.ExternalizeTurn | TenkiConv/Program.cs:187-220 | One loop turn does what `ExternalizeCommand` describes and advances lineCount. |
| Scripts.Script.Externalize | TenkiConv/Program.cs:176-221 | The in-place Externalize ends exactly as `Externalizing.Externalize` describes: the same error, or the same document and tables. |
| Scripts.Script.InternalizeDialogue | TenkiConv/Program.cs:226-235 | Fails exactly as, and otherwise leaves the document that, `InternalizeText` describes. |
| Scripts.Script.InternalizeSpeaker | TenkiConv/Program.cs:237-244 | Fails exactly as, and otherwise leaves the document that, `InternalizeName` describes. |
| Scripts.Script.Internalize | TenkiConv/Program.cs:223-252 | The in-place Internalize ends exactly as `Internalizing.Internalize` describes: the same error, or the same document and tables. So `InternalizeEffect.InternalizeSpec` states its effect. |

## Left out

- `Main`, `ConvertFile`, `Success` and `Error` (`Program.cs:10-86`, `500-512`) are left out. They are command-line dispatch and console colouring.
- Reading and writing files is left out:
  - `File.ReadAllLines` and `WriteCode` in the Shift-JIS code page are out. ParseCode takes the lines as a `seq<string>`.
  - The `.spt` files are read through a `Loader` parameter that gives the stored int32 values of a file name, or None when it cannot be opened. The model encodes and decodes that stream of values, not its bytes. A file whose length is not a multiple of four bytes ends in a partial value, which the stream does not hold.
  - `ScriptSection.Save` as file output is out. `Records.SaveOver` models its effect on the stored stream of values.
  - The directory part of the record file path is out.
- `LoadWithTranslations`, `WriteToCsv` and `WriteToTxt` (`Program.cs:358-391`, `405-465`) are left out. They go through the CsvHelper library and the file system. The tables are modelled as `map<int, string>`, and `CoalesceStrings` as a function.
- The `Console.WriteLine` diagnostics in `Validate` (`Program.cs:344`) and `ScriptLine.ToString` are left out.
- Scripts.Script.Validate: the kind check of commands against records is left out.
  - The program asserts, per record, that the command's class matches the record type (`Program.cs:341-346`). It does so only when a section's counts differ.
  - The model follows the code and checks only the counts.
  - In the case where the program runs the kind check, the count assertion after that loop fails anyway, so `Validate`'s verdict is the same.
- Patterns.SectionName: the `\w` and `\d` of SectionPattern are narrower than the Unicode classes of .NET. `\w` here covers ASCII letters, '_', the digits below, full-width Latin letters, the hiragana and katakana letters and marks, and the ideographs U+4E00..U+9FA5. `\d` covers ASCII and full-width digits. Every header the model accepts, the pattern accepts. A header whose scene id starts with another letter (Greek, Cyrillic, Hangul, a later CJK ideograph) or has other decimal digits is accepted by the program and rejected by the model as a malformed header.
- Patterns.MatchName, Patterns.SectionName: the .NET regex engine is replaced by matchers written for these two patterns.
- Strings.ParseInt32: the signs are `+` and `-`. The program uses the current culture's `PositiveSign` and `NegativeSign`, and the model assumes a culture whose signs are these.
- Strings: comparisons are ordinal, over `char` values. There is no culture-aware comparison or Unicode normalisation.
- Externalizing.Externalize: the counters lineCount and nameCount are unbounded. The int32 overflow of more than 2^31-1 dialogue commands is not modelled. The round trip requires at most Int32Max commands, so that every key the program writes parses back.
- Records.SptEntry: the fields are unbounded integers. `ReadInt32` gives only int32 values, and the model does not restrict them.
- Internalizing.InternalizeText: a missing record stops the run before `ChangeText` (NoRecord). The program would fail at the end of `ChangeText` (`Program.cs:303`). Both abort the run with the same cause.
- TextChange.ChangeText requires a non-empty text. This is the `Debug.Assert` at `Program.cs:263`. Its only caller passes the result of a split, which is never empty (`Internalizing.TranslationLines`). It also requires a record for the command, which InternalizeText checks first.
- Internalizing.Internalize, Scripts.Script.Internalize and Scripts.Script.ChangeText require the document to be well formed. This is the invariant ParseCode returns, proved above. Scripts that break it cannot be built through the parser, and their behaviour is not modelled.
- Scripts.Script.Validate and the other members of Scripts.Script require the references to be valid (`Sane`). Object references in the program cannot dangle.
- RoundTrip.ExternalizeInternalize requires plain dialogue lines (no newline, no `\n` escape). Speaker and code lines may hold anything. A dialogue holding the two characters `\n` comes back as two lines, because Internalize turns that escape into a line break. That is the program's intended way to let a translation add lines.
- InternalizeEffect.InternalizeSpec: line objects that ChangeText removes from `Lines` stay in the pool. The contract states their kind and command, but not their text or LineNumber, which no later step reads.
- After Externalize, the converter writes the script and reads it back with `ParseCode` before Internalize. That re-parse is not modelled; the round trip runs Internalize on the document in memory.
- A Release build is not modelled. There `Debug.Assert` is compiled out, so `Validate` asserts nothing (only its indexing of `Lines` can still throw) and `ParseCode`, `Externalize` and `Internalize` carry on past the conditions they assert (for example `Program.cs:150`, `190`, `201`, `228`). The model gives every such condition its Debug-build failure.
- Debug.Assert and exceptions end the run at the first failure. The model returns the error and drops the partly updated state. The program's partial state after an abort is not modelled.
