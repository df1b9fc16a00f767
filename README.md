# DialogueSystem core, modelled in Dafny

DialogueSystem runs branching dialogue written as an indentation-structured
script. A script line holds commands:

- `- key` starts a node;
- `speaker: text` is a dialogue line;
- `-> text` is an option, whose indented follow-up lines form an anonymous
  node `<n>`;
- `| node` is a goto line;
- `> name(a, b)` is an exec line that calls a host function;
- `[id]` tags the line just built;
- `#` starts a comment;
- `\` escapes a command.

The `DialogueParser` reads a script in two passes:

1. It builds parsed nodes layer by layer, one layer per indentation depth.
2. It materialises those nodes into a `DialogueSequence`, adding the
   fall-through goto each node without options implies.

The sequence owns three tables: nodes, line ids and host functions. It also
owns a cursor, `(currentNode, lineIndex)`. A traversal runs goto and exec
lines until it reaches a dialogue line, an optional line or the end of a
node, and shows that to the readers. The reader's resume actions move the
cursor on.

A separate formatting language, `$id(text)`, is parsed by `FormatParser`
into an `IdentifiedString`: the plain text, and the chunk of it each id
labels. A `\` before `$`, `(`, `)` or `\` writes that character into the
text. After a `$` the parser splits the rest once more, from a text whose
escapes it has already dropped, so a character escaped between a `$` and
the next command acts as a command after all (`$id\(text)` labels `text`).

The model follows the source file by file:

| file | module | what it holds |
|---|---|---|
| wrappers.dfy | `Wrappers` | `Maybe`, `Result` and the error taxonomy (one variant per exception and message) |
| strings.dfy | `Strings` | the .NET string primitives used: `Trim`, `Split('\n')` and number formatting |
| commands.dfy | `Commands` | the `Command` record, its priority order, the default tables and `CommandSettings` |
| string_utils.dfy | `StringUtils` | `SplitCommand`, the one-word test, directional search and clamped substrings |
| indentation.dfy | `Indentations` | the indentation analyser |
| function_calls.dfy | `FunctionCalls` | the `name(a, b)` call parser of exec lines |
| lines.dfy | `Lines` | `Option`, the line variants as one `Line` class, and `Node` |
| sequence.dfy | `Sequences` | `DialogueSequence`: tables, cursor and traversal |
| parser.dfy | `Parser` | `DialogueParser`: both passes |
| identified_string.dfy | `IdentifiedStrings` | `IdentifiedString` and its chunk dictionary |
| format_parser.dfy | `FormatParsing` | `FormatParser.Format` and the read-back of `$id(text)` |

Imperative code stays imperative:

- Loops are methods with invariants.
- Objects whose fields change are classes with `modifies` clauses.
- Each method is proved against a function that specifies it. The
  properties the source promises are lemmas about that function.

Exceptions are `Err` results carrying the exception's kind and message
class.

## Model

| member | source | states |
|---|---|---|
| Strings.Trim | Runtime/Core/Parse/FormatParser.cs:77 | the trimmed text is no longer than the input and neither starts nor ends with white space |
| Strings.TrimIsSlice | Runtime/Core/Parse/DialogueParser.cs:191 | trimming keeps one contiguous slice of the input, and everything cut off on either side is white space |
| Strings.TrimPadded | Runtime/Core/Parse/FormatParser.cs:77 | a word with white space on either side trims to the word |
| Strings.TrimEmptyIffWhiteSpace | Runtime/Core/Parse/DialogueParser.cs:59 | a line is skipped as blank exactly when it is white space only |
| Strings.NatToString | Runtime/Core/Parse/DialogueParser.cs:325 | the rendering of a number is non-empty and all decimal digits |
| Strings.SplitOn | Runtime/Core/Parse/DialogueParser.cs:45 | splitting a script gives at least one line, and no line holds the separator |
| Strings.SplitOnJoins | Runtime/Core/Parse/DialogueParser.cs:45 | joining the lines back with the separator gives the script: splitting loses nothing |
| Commands.CompareOrdinal | Runtime/Core/Parse/Command.cs:38 | string comparison answers -1, 0 or 1 |
| Commands.OrdinalZeroIff | Runtime/Core/Parse/Command.cs:38 | string comparison is 0 exactly for equal strings |
| Commands.OrdinalFlips | Runtime/Core/Parse/Command.cs:38 | swapping the strings flips the sign |
| Commands.OrdinalTransitive | Runtime/Core/Parse/Command.cs:38 | string order is transitive |
| Commands.CompareToZeroIff | Runtime/Core/Parse/Command.cs:31-39 | a command compares equal to itself, and to another command exactly when their literals are equal |
| Commands.CompareToFlips | Runtime/Core/Parse/Command.cs:31-39 | swapping the commands flips the sign of `CompareTo` |
| Commands.CompareToByLengthThenText | Runtime/Core/Parse/Command.cs:33-38 | a longer literal has priority; equal lengths fall back to string order |
| Commands.CompareToTransitive | Runtime/Core/Parse/Command.cs:31-39 | the priority order is transitive, so sorting by it is well defined |
| Commands.InsertPermutes | Runtime/Core/Parse/CommandSettings.cs:82 | inserting a command adds exactly that command to the multiset |
| Commands.InsertSorted | Runtime/Core/Parse/CommandSettings.cs:82 | inserting into a sorted table keeps it sorted |
| Commands.SortCommandsCorrect | Runtime/Core/Parse/CommandSettings.cs:82 | the sorted table is ordered by `CompareTo` and is a permutation of its input |
| Commands.SortedLongerFirst | Runtime/Core/Parse/CommandSettings.cs:82 | in a sorted table a longer literal comes before a shorter one |
| Commands.RemoveKind | Runtime/Core/Parse/CommandSettings.cs:77 | `RemoveAll` keeps exactly the commands of other kinds |
| Commands.Lookup | Runtime/Core/Parse/CommandSettings.cs:110-119 | the search finds a command of the kind in the table, or the table holds none of that kind |
| Commands.LookupRemoveKind | Runtime/Core/Parse/CommandSettings.cs:77 | after removing a kind its lookup finds nothing, and other kinds find what they found before |
| Commands.LookupAppend | Runtime/Core/Parse/CommandSettings.cs:79 | appending a command changes only the lookup of its kind, and only when the kind was absent |
| Commands.OverrideLastWins | Runtime/Core/Parse/CommandSettings.cs:73-80 | after the overrides, a kind finds its last definition, or its old command when it was never redefined |
| Commands.RemoveKindKeepsOnePerKind | Runtime/Core/Parse/CommandSettings.cs:77 | removal keeps at most one command per kind |
| Commands.OverrideKeepsOnePerKind | Runtime/Core/Parse/CommandSettings.cs:73-80 | overriding replaces and never merges: one command per kind at most |
| Commands.InsertLookup | Runtime/Core/Parse/CommandSettings.cs:82 | inserting a command of a new kind makes its kind find it, and other kinds find what they found before |
| Commands.SortKeepsLookup | Runtime/Core/Parse/CommandSettings.cs:82 | sorting a table with one command per kind does not change any lookup |
| Commands.DefaultsOnePerKind | Runtime/Core/Parse/CommandSettings.cs:15-27 | the ten defaults have one command per kind |
| Commands.DefaultTableOrder | Runtime/Core/Parse/CommandSettings.cs:15-27 | with no definitions the table is exactly the ten defaults, sorted, and `->` and `--` come before `-` |
| Commands.ActiveLookup | Runtime/Core/Parse/CommandSettings.cs:110-119 | in the active table a kind finds the command defined last for it, else its default |
| Commands.CommandSettings.constructor | Runtime/Core/Parse/CommandSettings.cs:13 | settings start with no definitions |
| Commands.CommandSettings.DefineCommand | Runtime/Core/Parse/CommandSettings.cs:58-61 | a definition is appended after the earlier ones |
| Commands.CommandSettings.GetCommands | Runtime/Core/Parse/CommandSettings.cs:68-84 | the table is the defaults with every definition applied in order, then sorted |
| Commands.CommandSettings.GetCommand | Runtime/Core/Parse/CommandSettings.cs:110-119 | a kind finds the first command of that kind in the sorted table, which is its last definition or else its default |
| StringUtils.StartCommandFinds | Runtime/Util/StringUtils.cs:127-137 | the command found is the first of the list, in list order, whose literal starts the text; when none is found, no literal of the list starts the text |
| StringUtils.SearchList | Runtime/Util/StringUtils.cs:55-59 | the searched commands are the given ones plus the escape |
| StringUtils.Step | Runtime/Util/StringUtils.cs:78-121 | a turn of the scan moves forward, and leaves the scan in a running state |
| StringUtils.SplitCommand | Runtime/Util/StringUtils.cs:46-125 | a null text fails with `ArgumentNull`; otherwise the loop computes the split its specification function defines |
| StringUtils.ScanTurn | Runtime/Util/StringUtils.cs:73-121 | one turn of the scanning loop computes the step of the specification function |
| StringUtils.StepKeepsInvariant | Runtime/Util/StringUtils.cs:78-121 | each turn keeps the scan invariant and fails only for an unknown escape |
| StringUtils.ScanWellFormed | Runtime/Util/StringUtils.cs:71-122 | the scan ends in a well-formed split or fails with an unknown escape |
| StringUtils.SplitWellFormed | Runtime/Util/StringUtils.cs:46-125 | a split names a searched command that is not the escape, or else has empty `after` and `next`; `next` is the untouched tail of the text and starts with a command; the only failure is an unknown escape |
| StringUtils.SplitTextMeans | Runtime/Util/StringUtils.cs:46-125 | both ways against a grammar of the text: the split returned is the grammar's split (pieces resolved into `before`, the first unescaped command, pieces resolved into `after`, then `next` from the second command on), any grammar split is what is returned, and the split fails exactly when an escape with no command after it comes before the second command |
| StringUtils.SplitAtCommand | Runtime/Util/StringUtils.cs:46-125 | a text that opens with an unescaped command splits with nothing before it, at that command, the first of the list whose literal starts the text |
| StringUtils.SplitsAsOk | Runtime/Util/StringUtils.cs:46-125 | a text that splits by the grammar is split that way |
| StringUtils.FailsErr | Runtime/Util/StringUtils.cs:46-125 | a text that runs into an escape with no command after it fails with an unknown escape |
| StringUtils.SplitOrFail | Runtime/Util/StringUtils.cs:46-125 | every text either splits by the grammar or fails by it |
| StringUtils.UnitCopied | Runtime/Util/StringUtils.cs:78-121 | a leading piece goes, resolved, to the front of `before`, and the rest of the text splits as it would alone |
| StringUtils.EscapeCopiesCommand | Runtime/Util/StringUtils.cs:80-97 | an escape followed by a command puts that command's literal, without the escape, at the front of `before` |
| StringUtils.PlainCharCopied | Runtime/Util/StringUtils.cs:117-121 | a character at which no command starts is copied to the front of `before` |
| StringUtils.StepReassembles | Runtime/Util/StringUtils.cs:78-121 | without escapes each turn keeps the parts glued together equal to the text read so far |
| StringUtils.ScanReassembles | Runtime/Util/StringUtils.cs:71-122 | without escapes the scan succeeds and its parts glue back to the text |
| StringUtils.SplitReassembles | Runtime/Util/StringUtils.cs:46-125 | without escapes, before + command + after + next is the text: only the command is removed |
| StringUtils.SplitsAsReassembles | Runtime/Util/StringUtils.cs:46-125 | a grammar split glues back to the text when the escape does not occur before `next` |
| StringUtils.SplitReassemblesBeforeNext | Runtime/Util/StringUtils.cs:46-125 | a split glues back to the text whenever the escape does not occur before `next`; escapes inside `next` do not matter |
| StringUtils.IsOneWordWithoutSymbols | Runtime/Util/StringUtils.cs:145-165 | true exactly for a non-null, non-empty text of letters and digits |
| StringUtils.IndexOfBefore | Runtime/Util/StringUtils.cs:176-200 | an empty search answers `startIndex`; otherwise the last occurrence ending at or before `startIndex`, or -1 when there is none |
| StringUtils.IndexOfAfter | Runtime/Util/StringUtils.cs:211-233 | an empty search answers `startIndex`; otherwise the first occurrence after `startIndex`, or -1 when there is none |
| StringUtils.UnboundedSubstring | Runtime/Util/StringUtils.cs:242-251 | the bounds are clamped to the text, bounds that still cross are out of range, and the result is the characters between them |
| StringUtils.UnboundedSubstringInRange | Runtime/Util/StringUtils.cs:242-251 | within range the clamped substring is the plain slice |
| StringUtils.UnboundedSubstringExamples | Runtime/Util/StringUtils.cs:242-251 | `abc` for (-100, 3), `ghi` for (6, 100), and out of range for (5, 2) |
| Indentations.UnitOf | Runtime/Core/Parse/DialogueParser.cs:130-139 | the unit found is made of the character, or no unit is |
| Indentations.LeadingRun | Runtime/Core/Parse/DialogueParser.cs:141-160 | the run of the character at the start of the line, and the character after it differs |
| Indentations.FindUnit | Runtime/Core/Parse/DialogueParser.cs:130-139 | the loop finds the first unit of the table made of the character |
| Indentations.GetIndentationLevel | Runtime/Core/Parse/DialogueParser.cs:121-182 | the loop computes the depth and rest its specification function defines |
| Indentations.RunIsLeadingRun | Runtime/Core/Parse/DialogueParser.cs:141-160 | a run of the character followed by another character is the leading run |
| Indentations.IndentationSplitsLine | Runtime/Core/Parse/DialogueParser.cs:121-182 | a line analyses either as depth 0 with its whole text, or as whole units of one character followed by text that starts with no indentation character |
| Indentations.IndentationRoundTrip | Runtime/Core/Parse/DialogueParser.cs:121-182 | whole units of a character followed by such text analyse back to that many levels and that text |
| Indentations.DefaultIndentationErrors | Runtime/Core/Parse/DialogueParser.cs:160-181 | with four spaces or one tab per level, spaces not a multiple of four are uneven, and spaces followed by a tab are a mix |
| FunctionCalls.LastMatch | Runtime/Core/Parse/DialogueParser.cs:436-446 | the part kept is the last of the table whose literal starts the text, or no part starts it |
| FunctionCalls.PartAt | Runtime/Core/Parse/DialogueParser.cs:436-446 | the part is read off the first character |
| FunctionCalls.AddParam | Runtime/Core/Parse/DialogueParser.cs:450-453 | a blank buffer adds no parameter; any other adds its trimmed text |
| FunctionCalls.CallStep | Runtime/Core/Parse/DialogueParser.cs:429-500 | each turn of the call parser moves forward within the text |
| FunctionCalls.GetFunctionAndParameters | Runtime/Core/Parse/DialogueParser.cs:413-504 | the loop computes the call its specification function defines |
| FunctionCalls.CallTurn | Runtime/Core/Parse/DialogueParser.cs:429-500 | one turn of the loop computes the step of the specification function |
| FunctionCalls.FindPart | Runtime/Core/Parse/DialogueParser.cs:436-446 | searching the table and keeping the last match finds the part read off the first character |
| FunctionCalls.StartsWithCommand | Runtime/Core/Parse/DialogueParser.cs:334-346 | the loop finds the first command of the list whose literal starts the text |
| FunctionCalls.TableMatchIsPartAt | Runtime/Core/Parse/DialogueParser.cs:436-446 | first match and last match of the function-part table agree |
| FunctionCalls.ScanPlain | Runtime/Core/Parse/DialogueParser.cs:495-499 | text without function parts is gathered into the buffer |
| FunctionCalls.NoCallWithoutParts | Runtime/Core/Parse/DialogueParser.cs:502-503 | a text without `(` names no function and has no parameters |
| FunctionCalls.DelimiterBeforeOpen | Runtime/Core/Parse/DialogueParser.cs:476-493 | a `)` or `,` before any `(` fails as unopened, or as an unexpected delimiter |
| FunctionCalls.OpenedTwiceFails | Runtime/Core/Parse/DialogueParser.cs:469-474 | a second `(` fails |
| FunctionCalls.TrailingEscapeFails | Runtime/Core/Parse/DialogueParser.cs:453-458 | an escape at the very end fails |
| FunctionCalls.EscapeSkipsPart | Runtime/Core/Parse/DialogueParser.cs:453-468 | an escape and the part after it are skipped, and neither reaches the buffer |
| FunctionCalls.CloseStep | Runtime/Core/Parse/DialogueParser.cs:476-486 | `)` after `(` ends the parse; a non-blank buffer becomes the last parameter |
| FunctionCalls.DelimiterStep | Runtime/Core/Parse/DialogueParser.cs:488-493 | `,` after `(` turns a non-blank buffer into a parameter |
| FunctionCalls.ScanParams | Runtime/Core/Parse/DialogueParser.cs:476-499 | after `(`, parameters separated by `,` and closed by `)` are read as their trimmed texts |
| FunctionCalls.CallRoundTrip | Runtime/Core/Parse/DialogueParser.cs:413-504 | `name(a, b)` followed by anything parses back to the trimmed name and trimmed parameters |
| Lines.Option.constructor | Runtime/Core/Option.cs:22-27 | an option keeps its node and text, starts enabled and has no id |
| Lines.EnabledOptions | Runtime/Core/OptionalLine.cs:96-105 | exactly the enabled options are kept |
| Lines.EnabledOptionsAppend | Runtime/Core/OptionalLine.cs:96-105 | filtering the enabled options distributes over concatenation |
| Lines.OptionStringParts | Runtime/Core/Option.cs:29-32 | the option text and node can be read back from its text form |
| Lines.DialogueStringParts | Runtime/Core/DialogueLine.cs:40-43 | the speaker and text can be read back from the text form |
| Lines.Line.constructor | Runtime/Core/Line.cs:8-10 | every line starts enabled, with no ids and no options |
| Lines.Line.Toggle | Runtime/Core/Line.cs:17-20 | the flag is set and nothing else changes |
| Lines.Line.IsEnabled | Runtime/Core/Line.cs:26-29 | the flag `Toggle` set last; a new line is enabled |
| Lines.Line.AddId | Runtime/Core/Line.cs:37-42 | a null id fails with `ArgumentNull`; any other id is appended, duplicates kept |
| Lines.Line.GetIds | Runtime/Core/Line.cs:44-47 | the ids in the order `AddId` appended them; a new line has none |
| Lines.Line.AddOption | Runtime/Core/OptionalLine.cs:29-39 | the new enabled option, without an id, gets the key equal to the old count, and the earlier options are kept |
| Lines.Line.GetOption | Runtime/Core/OptionalLine.cs:50-58 | a key finds its option exactly when it is in range; otherwise the lookup fails with an argument error |
| Lines.Line.TryGetOption | Runtime/Core/OptionalLine.cs:66-76 | returns the same option as `GetOption`, or nothing where `GetOption` fails |
| Lines.Line.CountOptions | Runtime/Core/OptionalLine.cs:78-81 | exactly the keys `GetOption` accepts are below it; `AddOption` raises it by one and a new line has none |
| Lines.Line.GetEnabledOptions | Runtime/Core/OptionalLine.cs:96-105 | the loop returns exactly the enabled options, in key order |
| Lines.Line.GetNodeFromSelection | Runtime/Core/OptionalLine.cs:114-123 | the node of the chosen option, or an argument error for an unknown key |
| Lines.Line.ToggleOption | Runtime/Core/OptionalLine.cs:130-136 | only the keyed option changes its flag; an unknown key changes nothing |
| Lines.Line.ToggleOptionsWithId | Runtime/Core/OptionalLine.cs:144-153 | exactly the options with that id get the flag; the others keep theirs |
| Lines.Line.ToString | Runtime/Core/OptionalLine.cs:155-166 | the text form of each variant: a dialogue line's speaker and text, an optional line's options, and the class name for goto and exec lines, which do not override it |
| Lines.Node.constructor | Runtime/Core/Node.cs:15-18 | a new node has no lines |
| Lines.Node.AddLine | Runtime/Core/Node.cs:19-22 | the line is appended and earlier positions keep their lines |
| Lines.Node.InsertLine | Runtime/Core/Node.cs:29-32 | positions 0 to count insert the line there and shift the rest up; others fail out of range and change nothing |
| Lines.Node.GetLine | Runtime/Core/Node.cs:40-47 | the line at an in-range position, otherwise nothing |
| Sequences.ShapeOf | Runtime/Core/DialogueSequence.cs:66-83 | a traversal sees only the variant of every line, not its flag or ids |
| Sequences.WalkEnds | Runtime/Core/DialogueSequence.cs:66-83 | a finished traversal stands on a line to show or past the end of its node; one out of fuel stands on a functional line; one that failed stands just past the failing line |
| Sequences.Display | Runtime/Core/DialogueSequence.cs:89-104 | a dialogue line and an optional line are shown as such; no line means the end |
| Sequences.RegisterIdsClash | Runtime/Core/DialogueSequence.cs:174-179 | registering ids succeeds exactly when they are new and distinct |
| Sequences.RegisterIdsTable | Runtime/Core/DialogueSequence.cs:174-179 | registration keeps old entries and maps each id registered to the line |
| Sequences.DialogueSequence.constructor | Runtime/Core/DialogueSequence.cs:19-25 | no nodes, ids, functions or current node |
| Sequences.DialogueSequence.AddNode | Runtime/Core/DialogueSequence.cs:148-159 | a null key or a key already present fails; otherwise a new empty node is added and nothing else changes |
| Sequences.DialogueSequence.AddLine | Runtime/Core/DialogueSequence.cs:169-182 | an unknown node fails; the ids are registered one by one, and a registered one fails after the ids before it; on success the line is appended and each of its ids finds it |
| Sequences.DialogueSequence.SetCurrentNode | Runtime/Core/DialogueSequence.cs:191-199 | an unknown node fails and leaves the cursor; otherwise the cursor moves there |
| Sequences.DialogueSequence.GetCurrentVisibleLine | Runtime/Core/DialogueSequence.cs:206-217 | the raw line under the cursor, or nothing |
| Sequences.DialogueSequence.RemoveFunction | Runtime/Core/DialogueSequence.cs:235-243 | says whether the key was there, and removes it |
| Sequences.DialogueSequence.SetFunction | Runtime/Core/DialogueSequence.cs:252-260 | a key already present fails; otherwise the function is added |
| Sequences.DialogueSequence.UpdateFunction | Runtime/Core/DialogueSequence.cs:267-277 | the function is added or replaced |
| Sequences.DialogueSequence.InvokeFunction | Runtime/Core/DialogueSequence.cs:286-296 | a null or unknown key fails and calls nothing; otherwise exactly one call with those parameters is logged |
| Sequences.DialogueSequence.Execute | Runtime/Core/GotoLine.cs:22-25 | a goto moves the cursor to the start of its destination, or fails for an unknown node and leaves the cursor; an exec line calls its function with its parameters and leaves the cursor |
| Sequences.DialogueSequence.Pass | Runtime/Core/DialogueSequence.cs:73-77 | one turn moves past the functional line and runs it, as one step of the traversal |
| Sequences.DialogueSequence.RunFunctionalLines | Runtime/Core/DialogueSequence.cs:71-80 | the loop ends where the traversal ends, having made its calls |
| Sequences.DialogueSequence.AdvanceToNextVisibleLine | Runtime/Core/DialogueSequence.cs:66-83 | no current node, or a current node not in the table, fails; otherwise the cursor, the calls and the outcome are those of the traversal, which ends on the line returned |
| Sequences.DialogueSequence.UpdateSequence | Runtime/Core/DialogueSequence.cs:50-57 | advances as the traversal does and shows the line it ends on |
| Sequences.DialogueSequence.StartSequence | Runtime/Core/DialogueSequence.cs:31-45 | no current node or an unknown one fails before any change; otherwise updates from the cursor |
| Sequences.DialogueSequence.ResumeLine | Runtime/Core/DialogueSequence.cs:119-130 | dismissing a dialogue line moves one line on and updates |
| Sequences.DialogueSequence.Choose | Runtime/Core/DialogueSequence.cs:106-117 | choosing an option moves to the start of its node and updates; an unknown node fails |
| Sequences.DialogueSequence.GetLineWithID | Runtime/Core/DialogueSequence.cs:306-319 | the line registered under the id when it is of the class asked for; an unknown id or a class mismatch fails |
| Sequences.WalkFuelMonotone | Runtime/Core/DialogueSequence.cs:66-83 | more fuel does not change a traversal that did not run out |
| Sequences.SelfGotoNeverStops | Runtime/Core/DialogueSequence.cs:71-80 | a node whose first line is a goto to itself never reaches a line to show |
| Parser.AnonNames | Runtime/Core/Parse/DialogueParser.cs:323-326 | anonymous keys are `<`, digits and `>`, and different numbers give different keys |
| Parser.NatToStringInjective | Runtime/Core/Parse/DialogueParser.cs:325 | different counters render differently, so anonymous keys never collide |
| Parser.LayerReady | Runtime/Core/Parse/DialogueParser.cs:369-376 | a node may go at most one layer below the deepest one, whose layer is then opened; deeper is a gap |
| Parser.TopNode | Runtime/Core/Parse/DialogueParser.cs:378-386 | a depth past the layers fails as `ArgumentOutOfRange`, an empty layer as `LayerNotPresent`; otherwise the last node of that layer, and only then does it succeed |
| Parser.NodeCreated | Runtime/Core/Parse/DialogueParser.cs:354-367 | a created node sits in the layer of its depth |
| Parser.NodeCreatedFrame | Runtime/Core/Parse/DialogueParser.cs:354-367 | a new node without lines goes last in its layer under a key not yet used, and every other node stays where it was |
| Parser.Contains | Runtime/Core/Parse/DialogueParser.cs:210 | `Contains` holds exactly when the literal occurs in the text |
| Parser.AnyLiteralIn | Runtime/Core/Parse/DialogueParser.cs:210 | some command's literal occurs in the key |
| Parser.InitialValid | Runtime/Core/Parse/DialogueParser.cs:21-28 | a new parser satisfies the first-pass invariant |
| Parser.KeysDistinct | Runtime/Core/Parse/DialogueParser.cs:365 | two parsed nodes never share a key |
| Parser.NodeCreatedValid | Runtime/Core/Parse/DialogueParser.cs:354-367 | creating a node under a parent one layer up keeps the invariant, and the node becomes the top of its layer |
| Parser.WithNodeValid | Runtime/Core/Parse/DialogueParser.cs:403-410 | updating a node in place, with its key and parent unchanged, keeps the invariant |
| Parser.LineAddedValid | Runtime/Core/Parse/DialogueParser.cs:388-412 | adding a line, possibly opening a node after a break, keeps the invariant |
| Parser.IdAddedValid | Runtime/Core/Parse/DialogueParser.cs:248-252 | tagging a line keeps the invariant |
| Parser.OptionTurnValid | Runtime/Core/Parse/DialogueParser.cs:215-234 | an option command keeps the invariant |
| Parser.HandleValid | Runtime/Core/Parse/DialogueParser.cs:205-291 | every command keeps the invariant |
| Parser.DialogueChains | Runtime/Core/Parse/DialogueParser.cs:262-297 | a dialogue command whose after-text is cut by a second dialogue command adds its line, leaves the rest from that command to parse, and the next turn adds a further dialogue line with an empty speaker |
| Parser.CommandLoopValid | Runtime/Core/Parse/DialogueParser.cs:201-298 | the command loop of a line keeps the invariant |
| Parser.ScriptParsedValid | Runtime/Core/Parse/DialogueParser.cs:55-63 | the first pass keeps the invariant: no empty layer, every parent one layer up, and the node table naming each node's place |
| Parser.FitsMeans | Runtime/Core/DialogueSequence.cs:174-179 | ids fit a table exactly when none repeats and none is present |
| Parser.NodeDraftsIds | Runtime/Core/Parse/DialogueParser.cs:80-111 | the lines a node becomes register the node's ids; the fall-through goto has none |
| Parser.IdTableMeans | Runtime/Core/Parse/DialogueParser.cs:66-72 | building node after node keeps a table exactly while no id so far repeats, and the table holds those ids |
| Parser.IdTableClash | Runtime/Core/Parse/DialogueParser.cs:66-72 | once an id clashes the script has a repeated id |
| Parser.IdTableEnd | Runtime/Core/Parse/DialogueParser.cs:66-72 | after the last layer the table holds every id, when none repeats |
| Parser.KeysBeforeStep | Runtime/Core/Parse/DialogueParser.cs:66-72 | the node built next is not built yet, and building it adds its key |
| Parser.KeysBeforeEnd | Runtime/Core/Parse/DialogueParser.cs:66-72 | after the last layer every parsed node is built |
| Parser.BuiltAppend | Runtime/Core/Parse/DialogueParser.cs:85-88 | appending a line made from a draft keeps a node's lines made from its drafts |
| Parser.AllBuiltStep | Runtime/Core/Parse/DialogueParser.cs:80-111 | adding a node built from its parsed node keeps every node built |
| Parser.Materialise | Runtime/Core/Parse/DialogueParser.cs:264-284 | a fresh line object of the draft's variant, ids and options |
| Parser.AddDraft | Runtime/Core/Parse/DialogueParser.cs:87 | a line is added exactly when its ids fit the table |
| Parser.AddDrafts | Runtime/Core/Parse/DialogueParser.cs:85-94 | the lines are added in order, exactly when all their ids fit; the node's lines are then made from the drafts |
| Parser.DialogueParser.constructor | Runtime/Core/Parse/DialogueParser.cs:21-28 | no layers, no nodes, no breaks, numbering from 0 |
| Parser.DialogueParser.GetAnonNode | Runtime/Core/Parse/DialogueParser.cs:323-326 | the key `<n>` for the counter, which is then incremented |
| Parser.DialogueParser.TryCreateLayer | Runtime/Core/Parse/DialogueParser.cs:369-376 | a gap fails and changes nothing; otherwise the layer is ready |
| Parser.DialogueParser.CreateParsedNode | Runtime/Core/Parse/DialogueParser.cs:354-367 | the state and place the node-creation function gives, or its error |
| Parser.DialogueParser.AddToNode | Runtime/Core/Parse/DialogueParser.cs:388-412 | with a pending break the line opens a sibling node and clears the break; otherwise it goes to the last node of the layer, which must exist |
| Parser.DialogueParser.AddLineCommand | Runtime/Core/Parse/DialogueParser.cs:262-285 | a dialogue, goto or exec line goes in at the current depth and becomes the line ids attach to |
| Parser.DialogueParser.HandleCommand | Runtime/Core/Parse/DialogueParser.cs:205-291 | one command acts as the turn function says, and returns what is left to parse |
| Parser.DialogueParser.CommandTurn | Runtime/Core/Parse/DialogueParser.cs:205-297 | one turn and the resplit keep the outcome of the command loop |
| Parser.DialogueParser.ParseNodes | Runtime/Core/Parse/DialogueParser.cs:188-299 | a script line is parsed as its depth, then at most 1000 commands |
| Parser.DialogueParser.RunCommands | Runtime/Core/Parse/DialogueParser.cs:201-298 | the loop ends in the outcome of the command loop |
| Parser.DialogueParser.BuildSequence | Runtime/Core/Parse/DialogueParser.cs:80-111 | the node is added under its key, with its lines, then its optional line or the goto to the node after its parent; a repeated key or id fails |
| Parser.DialogueParser.BuildNode | Runtime/Core/Parse/DialogueParser.cs:68-71 | building a node keeps the built nodes and the id table in step with build order |
| Parser.DialogueParser.BuildLayer | Runtime/Core/Parse/DialogueParser.cs:66-72 | building a layer fails only on a repeated id |
| Parser.DialogueParser.ParseLines | Runtime/Core/Parse/DialogueParser.cs:55-63 | the first pass skips blank lines and parses the others in order |
| Parser.DialogueParser.BuildLayers | Runtime/Core/Parse/DialogueParser.cs:66-72 | every parsed node is built, or a repeated id was found |
| Parser.DialogueParser.BuildAll | Runtime/Core/Parse/DialogueParser.cs:66-77 | no layer fails out of range, and a repeated id fails; otherwise a fresh sequence holds every parsed node built from its drafts, every id, and starts at the first node of layer 0 |
| Parser.DialogueParser.Parse | Runtime/Core/Parse/DialogueParser.cs:35-78 | null input fails; the first pass keeps the invariant; the result is the sequence of both passes, starting at the first node of layer 0 |
| IdentifiedStrings.ListedOnceMeans | Runtime/Core/Reader/IdentifiedString.cs:81-84 | ids listed once means no two positions hold the same id |
| IdentifiedStrings.AddBoundsTo | Runtime/Core/Reader/IdentifiedString.cs:36-64 | bounds are added exactly when 0 <= start <= end <= length and the id is new |
| IdentifiedStrings.AddBoundsKeepsWellFormed | Runtime/Core/Reader/IdentifiedString.cs:36-64 | adding bounds keeps every id listed once and every chunk inside the text |
| IdentifiedStrings.AddBoundsThenGet | Runtime/Core/Reader/IdentifiedString.cs:63 | after adding, the id has its bounds, is listed last, and the other ids keep theirs |
| IdentifiedStrings.AddBoundsErrors | Runtime/Core/Reader/IdentifiedString.cs:39-62 | range errors come first, then an end before the start, then a repeated key |
| IdentifiedStrings.IdentifiedString.constructor | Runtime/Core/Reader/IdentifiedString.cs:19-23 | the text with no chunks |
| IdentifiedStrings.IdentifiedString.AddBounds | Runtime/Core/Reader/IdentifiedString.cs:36-64 | the checks in source order; a failure leaves the chunks as they were |
| IdentifiedStrings.IdentifiedString.ContainsBounds | Runtime/Core/Reader/IdentifiedString.cs:72-75 | true exactly for a listed id |
| IdentifiedStrings.IdentifiedString.GetAllIds | Runtime/Core/Reader/IdentifiedString.cs:81-84 | every id once, in the order added |
| IdentifiedStrings.IdentifiedString.GetText | Runtime/Core/Reader/IdentifiedString.cs:86-89 | the text given at construction |
| IdentifiedStrings.IdentifiedString.GetBounds | Runtime/Core/Reader/IdentifiedString.cs:98-104 | the bounds of a known id, inside the text; an unknown id fails with `KeyNotFound` |
| FormatParsing.FormatLiterals | Runtime/Core/Parse/CommandSettings.cs:45-51 | every format command is one character, and the escape is among them |
| FormatParsing.FormatStep | Runtime/Core/Parse/FormatParser.cs:37-107 | each turn consumes text |
| FormatParsing.Format | Runtime/Core/Parse/FormatParser.cs:21-122 | the loop builds a fresh identified string with the text and chunks of the specification function, or fails with its error |
| FormatParsing.FormatTurn | Runtime/Core/Parse/FormatParser.cs:37-107 | one turn of the loop computes the step of the specification function |
| FormatParsing.FormatStepSound | Runtime/Core/Parse/FormatParser.cs:37-107 | each turn keeps every label inside the output, and fails only for an unknown escape or a malformed label |
| FormatParsing.FormatLoopSound | Runtime/Core/Parse/FormatParser.cs:35-107 | the loop keeps every label inside the output and fails only for an unknown escape or a malformed label |
| FormatParsing.AddAllBoundsOutcome | Runtime/Core/Parse/FormatParser.cs:114-121 | the labels are all added exactly when no id repeats; the only failure is a repeated key |
| FormatParsing.AddAllBoundsKeepsWellFormed | Runtime/Core/Parse/FormatParser.cs:114-121 | adding the labels keeps every id listed once and every chunk inside the text |
| FormatParsing.AddAllBoundsKeeps | Runtime/Core/Parse/FormatParser.cs:114-121 | labels with fresh ids are listed in order after the ids already there, which keep their bounds |
| FormatParsing.AddAllBoundsAdded | Runtime/Core/Parse/FormatParser.cs:114-121 | every label with a fresh id gets its bounds |
| FormatParsing.FormatTextWellFormed | Runtime/Core/Parse/FormatParser.cs:21-122 | a formatted text carries a well-formed dictionary, and never fails for a range error |
| FormatParsing.EscapeUnformatted | Runtime/Util/StringUtils.cs:80-97 | escaping a text without format characters leaves it as it is |
| FormatParsing.EscapeAppend | Runtime/Util/StringUtils.cs:80-97 | escaping distributes over concatenation |
| FormatParsing.EscapedRun | Runtime/Util/StringUtils.cs:78-121 | an escaped text is a run of pieces that resolves to the text itself |
| FormatParsing.SplitEscaped | Runtime/Util/StringUtils.cs:46-125 | an escaped text splits into itself alone, with its escapes dropped |
| FormatParsing.SplitAroundEscaped | Runtime/Util/StringUtils.cs:46-125 | escaped `p`, a command `c`, escaped `q`, then `R` split into `p`, `c`, `q` and the untouched `R` |
| FormatParsing.StartCommandAt | Runtime/Util/StringUtils.cs:127-137 | with one-character format commands, the command starting a text is read off its first character |
| FormatParsing.StepDollar | Runtime/Core/Parse/FormatParser.cs:50-65 | before a `$` the escaped text goes to the output without its escapes, the label starts where the output ends, and the text after the `$` is parsed again with its escapes already dropped |
| FormatParsing.StepOpen | Runtime/Core/Parse/FormatParser.cs:67-94 | the id before `(` is trimmed, and the text after it goes to the output labelled with the id |
| FormatParsing.StepBadId | Runtime/Core/Parse/FormatParser.cs:77-82 | an id that is not one word stops the loop with that error |
| FormatParsing.StepClose | Runtime/Core/Parse/FormatParser.cs:96-106 | `)` closes the label and the rest is parsed afresh |
| FormatParsing.StepPlain | Runtime/Core/Parse/FormatParser.cs:43-47 | escaped text with no command left goes to the output without its escapes and ends the loop |
| FormatParsing.FormatLoopWritten | Runtime/Core/Parse/FormatParser.cs:35-107 | the loop reads written segments back: escaped lead text, `$`, the id, `(`, escaped labelled text, `)` |
| FormatParsing.ReadingShows | Runtime/Core/Parse/FormatParser.cs:56-106 | reading the segments adds the shown text to the output and one label per segment |
| FormatParsing.TagsMarkBodies | Runtime/Core/Parse/FormatParser.cs:84-90 | each label marks exactly its segment's text in the output |
| FormatParsing.FormatWritten | Runtime/Core/Parse/FormatParser.cs:21-122 | round trip: formatting written segments, with the text around the ids escaped, gives the shown text with the escapes dropped, each id labelling its text and the ids listed in order; a repeated id fails with a duplicate key |
| FormatParsing.FormatOneSegment | Runtime/Core/Parse/FormatParser.cs:21-122 | one written segment formats to its lead, text and tail, with the id labelling exactly the text |
| FormatParsing.FormatExampleSimple | Tests/Runtime/Core/TestFormatParser.cs:25-29 | `Hello $id(World)!` formats to `Hello World!` with `id` at (6, 11) |
| FormatParsing.FormatExampleEscaped | Tests/Runtime/Core/TestFormatParser.cs:38-42 | `Hello \$$id (World\))!` formats to `Hello $World)!` with `id` at (7, 13) |
| FormatParsing.PaddedWritable | Runtime/Core/Parse/FormatParser.cs:77 | white space around the id is allowed, because the id is trimmed |
| FormatParsing.FormatPlain | Runtime/Core/Parse/FormatParser.cs:43-47 | any text written with its format characters escaped comes out as it was, with no label; text without format characters comes out as it is |
| FormatParsing.FormatNoDollar | Runtime/Core/Parse/FormatParser.cs:50-55 | a `(` or `)` where a `$` is due fails: ids must begin with `$` |
| FormatParsing.FormatNoOpen | Runtime/Core/Parse/FormatParser.cs:67-72 | a `$` or `)` after the id where a `(` is due fails |
| FormatParsing.FormatBadId | Runtime/Core/Parse/FormatParser.cs:77-82 | an id that does not trim to one word of letters and digits fails |
| FormatParsing.FormatNoClose | Runtime/Core/Parse/FormatParser.cs:96-101 | a `$` or `(` inside the labelled text fails: it must be closed with `)` |
| FormatParsing.FormatUnfinished | Runtime/Core/Parse/FormatParser.cs:109-112 | a label left open at the end of the text, before or after its `(`, fails |

## Left out

- Readers (`IDialogueReader`) and their fan-out: each update returns the
  event the readers would be shown. The resume actions they would call are
  the operations `ResumeLine` and `Choose`. Which reader resumes first is
  not modelled.
- Host functions (`Delegate`, `DynamicInvoke`) are opaque handles. A call
  appends the handle and its parameters to an invocation log. What a host
  function does, and any exception it throws, is outside the model.
- The warning the parser logs for an unknown command is dropped. The
  command is ignored with the rest of its line, as in the source.
- A chain of goto lines that never reaches a line to show makes the source
  loop forever. The traversal is therefore given fuel, and running out of
  fuel is an outcome of its own (`SelfGotoNeverStops` shows one such
  chain).
- `char.IsWhiteSpace`, `char.IsLetterOrDigit` and the white space set of
  `string.Trim` are restricted to their ASCII members.
- Commands.CompareOrdinal: the culture-sensitive `string.CompareTo` is
  modelled by ordinal comparison of character codes. Culture rules that
  order strings differently are not captured.
- `string.StartsWith(string)` with no comparison argument is
  culture-sensitive in the source (StringUtils.cs and
  DialogueParser.cs). It is modelled as an ordinal prefix test, so
  culture rules that match ignorable characters are not captured.
- `Dictionary` throws `ArgumentNullException` for a null key. Keys are
  strings in the model and cannot be null, so that exception is dropped
  from `SetFunction`, `UpdateFunction`, `RemoveFunction`, `GetLineWithID`,
  `AddLine`, `SetCurrentNode` (reached from `Choose` and `GotoLine.Execute`)
  and `IdentifiedString`'s `AddBounds`, `ContainsBounds` and `GetBounds`.
- Commands.SortCommands: `List.Sort` is not stable. Commands with equal
  literals may come out in another order than the insertion sort gives.
  Lookup by kind is unaffected when each kind has one command.
- Commands are compared by value. The source compares the escape command
  by reference, so a different object with the same kind and literal
  would be treated differently by the source.
- StringUtils.SplitCommand requires a non-empty escape literal. With an
  empty one the source never advances and loops forever.
- Parser.DialogueParser.ParseNodes: after a failed line the parser's
  fields are left unspecified. The source has already applied some
  updates, such as a removed break or an opened layer, before it throws.
  A parser is used for one parse.
- A `StringUtilsException` raised while splitting a script line
  propagates as it is, as the code does; it is not wrapped in a
  `DialogueParseException`.
- Parsed nodes are values inside the parser's layers. A parent is named
  by its (layer, index) place instead of by reference. The line being
  built is named by its place too.
- Lines become objects only when the sequence is built. The line variants
  are one `Line` class with a variant field, since the class hierarchy
  has no behaviour beyond the variant's fields:
  - `DialogueLine`'s speaker and text;
  - `GotoLine`'s destination;
  - `ExecLine`'s name and parameters, read back as `GetParameters` does.
- `OptionalLine.GetOptions` has no member of its own: the model reads the
  option sequence field directly. The option keys are the positions 0 to n-1.
- The line number passed to `DialogueParseException` is not recorded,
  nor is the text of any exception message.
- `FileReader`, the Unity reader components (`FormattedReader`,
  `TextMeshFormatter`, `FormatCollection`, `Format`) and the sample
  scenes are not part of this model: they are I/O and UI.
